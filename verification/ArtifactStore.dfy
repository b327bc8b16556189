/**
 The artifact list of a conversation: what arrived over the event stream (`ingested`), the server's pages,
 and requests whose answers may come late, after the user has changed.
 */
module ArtifactStore {
  import opened Common

  datatype Item = Item(id: string, title: string, available: bool)

  datatype Page = Page(artifacts: seq<Item>, total: nat, offset: nat)

  datatype FilterChoice = All | Image | Video | Audio | Doc

  datatype Store = Store(
    ingested: seq<Item>,
    pages: seq<Item>,
    total: nat,
    loading: bool,
    loadingMore: bool,
    error: Option<string>,
    loaded: bool,
    nextOffset: nat,
    filter: FilterChoice)

  const EMPTY := Store([], [], 0, false, false, None, false, 0, All)

  // ---------------------------------------------------------------------------------------------
  // Lists
  // ---------------------------------------------------------------------------------------------

  function Ids(list: seq<Item>): set<string> {
    set k | 0 <= k < |list| :: list[k].id
  }

  function Without(list: seq<Item>, ids: set<string>): seq<Item> {
    if list == [] then []
    else Without(list[..|list| - 1], ids) + if list[|list| - 1].id in ids then [] else [list[|list| - 1]]
  }

  /** The list shown: ingested items first, each id once. */
  function Merged(ingested: seq<Item>, pages: seq<Item>): seq<Item> {
    ingested + Without(pages, Ids(ingested))
  }

  function Max(a: nat, b: nat): nat {
    if a < b then b else a
  }

  /** A head page replaces what it mentions and keeps the older pages. */
  function ApplyHead(page: Page, s: Store): Store {
    s.(pages := page.artifacts + Without(s.pages, Ids(page.artifacts)),
       ingested := Without(s.ingested, Ids(page.artifacts)),
       total := page.total,
       nextOffset := Max(s.nextOffset, page.offset + |page.artifacts|),
       loaded := true)
  }

  function ApplyMore(page: Page, s: Store): Store {
    s.(pages := s.pages + Without(page.artifacts, Known(s)),
       total := Max(s.total, page.total),
       nextOffset := Max(s.nextOffset, page.offset + |page.artifacts|))
  }

  /** All ids the store has an item for. */
  function Known(s: Store): set<string> {
    Ids(s.ingested) + Ids(s.pages)
  }

  /** Newest first; an id that comes twice keeps the place of its later occurrence and the content of its earlier. */
  function Prefix(next: seq<Item>): seq<Item>
    decreases |next|
  {
    if next == [] then [] else Put(Prefix(next[1..]), next[0])
  }

  function Put(prefix: seq<Item>, item: Item): seq<Item> {
    if prefix == [] then [item]
    else if prefix[0].id == item.id then [item] + prefix[1..]
    else [prefix[0]] + Put(prefix[1..], item)
  }

  function ApplyIngest(next: seq<Item>, s: Store): Store {
    if next == [] then s
    else
      s.(ingested := Prefix(next) + Without(s.ingested, Ids(Prefix(next))),
         total := s.total + |Ids(next) - Known(s)|)
  }

  function Patched(list: seq<Item>, id: string): (r: seq<Item>)
    ensures |r| == |list|
    ensures forall k | 0 <= k < |r| :: r[k] == if list[k].id == id then list[k].(available := false) else list[k]
  {
    seq(|list|, k requires 0 <= k < |list| => if list[k].id == id then list[k].(available := false) else list[k])
  }

  // ---------------------------------------------------------------------------------------------
  // Runs
  // ---------------------------------------------------------------------------------------------

  /** The store, the two variables beside it, and the generations of the requests in flight. */
  datatype World = World(
    store: Store,
    generation: nat,
    headInFlight: Option<nat>,
    heads: multiset<nat>,
    mores: multiset<nat>)

  const START := World(EMPTY, 0, None, multiset{}, multiset{})

  datatype Event =
    | Load
    | RefreshHead
    | LoadMore
    | HeadDone(gen: nat, outcome: Result<Page, string>)
    | MoreDone(gen: nat, outcome: Result<Page, string>)
    | Ingest(items: seq<Item>)
    | SetFilter(choice: FilterChoice)
    | MarkUnavailable(id: string)
    | Reset

  /** Only requests in flight are answered. */
  predicate Possible(w: World, e: Event) {
    (e.HeadDone? ==> e.gen in w.heads) && (e.MoreDone? ==> e.gen in w.mores)
  }

  function StartHead(w: World): World {
    if w.headInFlight.Some? then w
    else w.(headInFlight := Some(w.generation),
            heads := w.heads + multiset{w.generation},
            store := w.store.(loading := true, error := None))
  }

  function StartMore(w: World): World {
    if w.store.loadingMore || w.store.nextOffset >= w.store.total then w
    else w.(mores := w.mores + multiset{w.generation}, store := w.store.(loadingMore := true, error := None))
  }

  function HeadLanded(s: Store, outcome: Result<Page, string>): Store {
    match outcome
    case Ok(page) => ApplyHead(page, s).(loading := false)
    case Err(message) => s.(error := Some(message), loading := false)
  }

  function MoreLanded(s: Store, outcome: Result<Page, string>): Store {
    match outcome
    case Ok(page) => ApplyMore(page, s).(loadingMore := false)
    case Err(message) => s.(error := Some(message), loadingMore := false)
  }

  function Next(w: World, e: Event): World
    requires Possible(w, e)
  {
    match e
    case Load => if w.store.loaded then w else StartHead(w)
    case RefreshHead => StartHead(w)
    case LoadMore => StartMore(w)
    case HeadDone(gen, outcome) =>
      w.(heads := w.heads - multiset{gen},
         headInFlight := if w.headInFlight == Some(gen) then None else w.headInFlight,
         store := if gen == w.generation then HeadLanded(w.store, outcome) else w.store)
    case MoreDone(gen, outcome) =>
      w.(mores := w.mores - multiset{gen},
         store := if gen == w.generation then MoreLanded(w.store, outcome) else w.store)
    case Ingest(items) => w.(store := ApplyIngest(items, w.store))
    case SetFilter(choice) => w.(store := w.store.(filter := choice))
    case MarkUnavailable(id) =>
      w.(store := w.store.(ingested := Patched(w.store.ingested, id), pages := Patched(w.store.pages, id)))
    case Reset => World(EMPTY, w.generation + 1, None, w.heads, w.mores)
  }

  /** One request of each kind at most is in flight for the current generation, and the flags say so. */
  ghost predicate Inv(w: World) {
    && w.heads[w.generation] == (if w.store.loading then 1 else 0)
    && w.headInFlight == (if w.store.loading then Some(w.generation) else None)
    && w.mores[w.generation] == (if w.store.loadingMore then 1 else 0)
    && (forall g | g in w.heads :: g <= w.generation)
    && (forall g | g in w.mores :: g <= w.generation)
  }

  /** The requests counted by the flags stay in step whatever happens in whatever order. */
  lemma NextKeepsInv(w: World, e: Event)
    requires Inv(w) && Possible(w, e)
    ensures Inv(Next(w, e))
  {
    hide HeadLanded, MoreLanded, ApplyIngest, Patched, StartHead, StartMore;
    match e
    case Load => StartHeadKeepsInv(w);
    case RefreshHead => StartHeadKeepsInv(w);
    case LoadMore => StartMoreKeepsInv(w);
    case HeadDone(_, _) => HeadDoneKeepsInv(w, e);
    case MoreDone(_, _) => MoreDoneKeepsInv(w, e);
    case Ingest(items) => IngestFlags(items, w.store);
    case SetFilter(_) =>
    case MarkUnavailable(_) =>
    case Reset => ResetOutdatesRequests(w);
  }

  lemma StartHeadKeepsInv(w: World)
    requires Inv(w)
    ensures Inv(StartHead(w))
  {
  }

  lemma StartMoreKeepsInv(w: World)
    requires Inv(w)
    ensures Inv(StartMore(w))
  {
  }

  lemma HeadDoneKeepsInv(w: World, e: Event)
    requires Inv(w) && Possible(w, e) && e.HeadDone?
    ensures Inv(Next(w, e))
  {
    hide HeadLanded, MoreLanded, ApplyIngest, Patched, StartHead, StartMore;
    HeadLandedFlags(w.store, e.outcome);
  }

  lemma MoreDoneKeepsInv(w: World, e: Event)
    requires Inv(w) && Possible(w, e) && e.MoreDone?
    ensures Inv(Next(w, e))
  {
    hide HeadLanded, MoreLanded, ApplyIngest, Patched, StartHead, StartMore;
    MoreLandedFlags(w.store, e.outcome);
  }

  lemma HeadLandedFlags(s: Store, outcome: Result<Page, string>)
    ensures !HeadLanded(s, outcome).loading && HeadLanded(s, outcome).loadingMore == s.loadingMore
  {
  }

  lemma MoreLandedFlags(s: Store, outcome: Result<Page, string>)
    ensures !MoreLanded(s, outcome).loadingMore && MoreLanded(s, outcome).loading == s.loading
  {
  }

  lemma IngestFlags(items: seq<Item>, s: Store)
    ensures ApplyIngest(items, s).loading == s.loading && ApplyIngest(items, s).loadingMore == s.loadingMore
  {
  }

  /** An answer to a request of an earlier generation changes nothing that is shown or decided upon. */
  lemma LateAnswerChangesNothing(w: World, e: Event)
    requires Inv(w) && Possible(w, e) && (e.HeadDone? || e.MoreDone?) && e.gen != w.generation
    ensures Next(w, e).store == w.store
    ensures Next(w, e).generation == w.generation && Next(w, e).headInFlight == w.headInFlight
  {
  }

  /** A reset makes every request in flight an earlier one. */
  lemma ResetOutdatesRequests(w: World)
    requires Inv(w)
    ensures forall g | g in Next(w, Reset).heads || g in Next(w, Reset).mores :: g < Next(w, Reset).generation
  {
  }

  // ---------------------------------------------------------------------------------------------
  // Known ids
  // ---------------------------------------------------------------------------------------------

  lemma IdsConcat(a: seq<Item>, b: seq<Item>)
    ensures Ids(a + b) == Ids(a) + Ids(b)
  {
    var c := a + b;
    forall x | x in Ids(a) + Ids(b) ensures x in Ids(c) {
      if x in Ids(a) {
        var k :| 0 <= k < |a| && a[k].id == x;
        assert c[k].id == x;
      } else {
        var k :| 0 <= k < |b| && b[k].id == x;
        assert c[|a| + k].id == x;
      }
    }
    forall x | x in Ids(c) ensures x in Ids(a) + Ids(b) {
      var k :| 0 <= k < |c| && c[k].id == x;
      if k < |a| {
        assert a[k].id == x;
      } else {
        assert b[k - |a|].id == x;
      }
    }
  }

  lemma {:induction false} WithoutIds(list: seq<Item>, ids: set<string>)
    ensures Ids(Without(list, ids)) == Ids(list) - ids
  {
    if list != [] {
      var front, last := list[..|list| - 1], list[|list| - 1];
      WithoutIds(front, ids);
      IdsConcat(front, [last]);
      IdsOne(last);
      assert list == front + [last];
      IdsConcat(Without(front, ids), if last.id in ids then [] else [last]);
    }
  }

  lemma IdsOne(item: Item)
    ensures Ids([item]) == {item.id} && Ids([]) == {}
  {
    assert [item][0].id == item.id;
  }

  lemma {:induction false} PutIds(prefix: seq<Item>, item: Item)
    ensures Ids(Put(prefix, item)) == Ids(prefix) + {item.id}
  {
    hide Ids;
    IdsOne(item);
    if prefix != [] {
      var first, rest := prefix[0], prefix[1..];
      IdsOne(first);
      IdsConcat([first], rest);
      IdsConcat([item], rest);
      assert prefix == [first] + rest;
      if first.id != item.id {
        PutIds(rest, item);
        IdsConcat([first], Put(rest, item));
      }
    }
  }

  lemma {:induction false} PrefixIds(next: seq<Item>)
    ensures Ids(Prefix(next)) == Ids(next)
  {
    hide Ids;
    if next != [] {
      PrefixIds(next[1..]);
      PutIds(Prefix(next[1..]), next[0]);
      IdsOne(next[0]);
      IdsConcat([next[0]], next[1..]);
      assert next == [next[0]] + next[1..];
    }
  }

  lemma PatchedIds(list: seq<Item>, id: string)
    ensures Ids(Patched(list, id)) == Ids(list)
  {
    var p := Patched(list, id);
    assert forall k | 0 <= k < |list| :: p[k].id == list[k].id;
    forall x | x in Ids(list) ensures x in Ids(p) {
      var k :| 0 <= k < |list| && list[k].id == x;
      assert p[k].id == x;
    }
  }

  lemma PatchKeepsIds(s: Store, id: string)
    ensures Known(s.(ingested := Patched(s.ingested, id), pages := Patched(s.pages, id))) == Known(s)
  {
    hide Ids, Patched;
    PatchedIds(s.ingested, id);
    PatchedIds(s.pages, id);
  }

  lemma HeadAddsIds(s: Store, page: Page)
    ensures Known(ApplyHead(page, s)) == Known(s) + Ids(page.artifacts)
  {
    hide Ids, Without;
    var ids := Ids(page.artifacts);
    IdsConcat(page.artifacts, Without(s.pages, ids));
    WithoutIds(s.pages, ids);
    WithoutIds(s.ingested, ids);
  }

  lemma MoreAddsIds(s: Store, page: Page)
    ensures Known(ApplyMore(page, s)) == Known(s) + Ids(page.artifacts)
  {
    hide Ids, Without;
    IdsConcat(s.pages, Without(page.artifacts, Known(s)));
    WithoutIds(page.artifacts, Known(s));
  }

  lemma IngestAddsIds(s: Store, items: seq<Item>)
    ensures Known(ApplyIngest(items, s)) == Known(s) + Ids(items)
  {
    hide Ids, Without, Prefix;
    var prefix := Prefix(items);
    PrefixIds(items);
    IdsOne(Item("", "", false));
    IdsConcat(prefix, Without(s.ingested, Ids(prefix)));
    WithoutIds(s.ingested, Ids(prefix));
  }

  /** The total grows by as many as become known. */
  lemma IngestCountsTheNew(s: Store, items: seq<Item>)
    ensures ApplyIngest(items, s).total - s.total == |Known(ApplyIngest(items, s))| - |Known(s)|
  {
    hide Ids, Without, Prefix, Known;
    IngestAddsIds(s, items);
    var added := Ids(items) - Known(s);
    assert Known(s) + Ids(items) == Known(s) + added;
    if items == [] {
      IdsOne(Item("", "", false));
    }
  }

  /** Within a generation the cursor never goes back and no id is forgotten. */
  lemma NextGrows(w: World, e: Event)
    requires Possible(w, e)
    ensures Next(w, e).generation == if e.Reset? then w.generation + 1 else w.generation
    ensures !e.Reset? ==> w.store.nextOffset <= Next(w, e).store.nextOffset && Known(w.store) <= Known(Next(w, e).store)
  {
    hide Known, ApplyHead, ApplyMore, ApplyIngest, Patched;
    match e
    case HeadDone(_, outcome) => HeadLandedGrows(w.store, outcome);
    case MoreDone(_, outcome) => MoreLandedGrows(w.store, outcome);
    case Ingest(items) => IngestAddsIds(w.store, items); CursorMoves(w.store, PageOf(e), items);
    case MarkUnavailable(id) => PatchKeepsIds(w.store, id);
    case Load => SameKnown(w.store, StartHead(w).store);
    case RefreshHead => SameKnown(w.store, StartHead(w).store);
    case LoadMore => SameKnown(w.store, StartMore(w).store);
    case SetFilter(choice) => SameKnown(w.store, w.store.(filter := choice));
    case Reset =>
  }

  lemma CursorMoves(s: Store, page: Page, items: seq<Item>)
    ensures ApplyHead(page, s).nextOffset >= s.nextOffset && ApplyMore(page, s).nextOffset >= s.nextOffset
    ensures ApplyIngest(items, s).nextOffset == s.nextOffset
  {
  }

  lemma SameKnown(s: Store, t: Store)
    requires s.ingested == t.ingested && s.pages == t.pages
    ensures Known(s) == Known(t)
  {
  }

  lemma HeadLandedGrows(s: Store, outcome: Result<Page, string>)
    ensures s.nextOffset <= HeadLanded(s, outcome).nextOffset && Known(s) <= Known(HeadLanded(s, outcome))
  {
    hide Known, ApplyHead;
    if outcome.Ok? {
      HeadAddsIds(s, outcome.value);
      CursorMoves(s, outcome.value, []);
      SameKnown(ApplyHead(outcome.value, s), HeadLanded(s, outcome));
    } else {
      SameKnown(s, HeadLanded(s, outcome));
    }
  }

  lemma MoreLandedGrows(s: Store, outcome: Result<Page, string>)
    ensures s.nextOffset <= MoreLanded(s, outcome).nextOffset && Known(s) <= Known(MoreLanded(s, outcome))
  {
    hide Known, ApplyMore;
    if outcome.Ok? {
      MoreAddsIds(s, outcome.value);
      CursorMoves(s, outcome.value, []);
      SameKnown(ApplyMore(outcome.value, s), MoreLanded(s, outcome));
    } else {
      SameKnown(s, MoreLanded(s, outcome));
    }
  }

  function PageOf(e: Event): Page {
    if (e.HeadDone? || e.MoreDone?) && e.outcome.Ok? then e.outcome.value else Page([], 0, 0)
  }

  // ---------------------------------------------------------------------------------------------
  // No id twice
  // ---------------------------------------------------------------------------------------------

  ghost predicate Unique(list: seq<Item>) {
    forall i, j | 0 <= i < j < |list| :: list[i].id != list[j].id
  }

  ghost predicate NoRepeats(s: Store) {
    Unique(s.ingested) && Unique(s.pages)
  }

  lemma IdIn(list: seq<Item>, k: nat)
    requires k < |list|
    ensures list[k].id in Ids(list)
  {
  }

  lemma UniqueConcat(a: seq<Item>, b: seq<Item>)
    requires Unique(a) && Unique(b) && Ids(a) !! Ids(b)
    ensures Unique(a + b)
  {
    hide Ids;
    var c := a + b;
    forall i, j | 0 <= i < j < |c| ensures c[i].id != c[j].id {
      if i < |a| <= j {
        IdIn(a, i);
        IdIn(b, j - |a|);
      }
    }
  }

  lemma {:induction false} UniqueWithout(list: seq<Item>, ids: set<string>)
    requires Unique(list)
    ensures Unique(Without(list, ids))
  {
    if list != [] {
      var front, last := list[..|list| - 1], list[|list| - 1];
      UniqueWithout(front, ids);
      if last.id !in ids {
        WithoutIds(front, ids);
        IdsOne(last);
        assert last.id !in Ids(front);
        UniqueConcat(Without(front, ids), [last]);
      }
    }
  }

  lemma {:induction false} UniquePut(prefix: seq<Item>, item: Item)
    requires Unique(prefix)
    ensures Unique(Put(prefix, item))
  {
    if prefix != [] {
      var first, rest := prefix[0], prefix[1..];
      if first.id != item.id {
        UniquePut(rest, item);
        PutIds(rest, item);
        IdsOne(first);
        assert first.id !in Ids(rest);
        UniqueConcat([first], Put(rest, item));
      }
    }
  }

  lemma {:induction false} UniquePrefix(next: seq<Item>)
    ensures Unique(Prefix(next))
  {
    if next != [] {
      UniquePrefix(next[1..]);
      UniquePut(Prefix(next[1..]), next[0]);
    }
  }

  /** With pages that name no id twice, neither list ever does. */
  lemma NextKeepsUnique(w: World, e: Event)
    requires Possible(w, e) && NoRepeats(w.store) && Unique(PageOf(e).artifacts)
    ensures NoRepeats(Next(w, e).store)
  {
    hide Ids, Without, Prefix, Unique, Patched;
    var s := w.store;
    NoneIsUnique();
    match e
    case HeadDone(_, _) => HeadKeepsUnique(PageOf(e), s);
    case MoreDone(_, _) => MoreKeepsUnique(PageOf(e), s);
    case Ingest(items) => IngestKeepsUnique(items, s);
    case MarkUnavailable(id) => PatchKeepsUnique(s.ingested, id); PatchKeepsUnique(s.pages, id);
    case _ =>
  }

  lemma NoneIsUnique()
    ensures Unique([])
  {
  }

  lemma PatchKeepsUnique(list: seq<Item>, id: string)
    requires Unique(list)
    ensures Unique(Patched(list, id))
  {
  }

  lemma HeadKeepsUnique(page: Page, s: Store)
    requires NoRepeats(s) && Unique(page.artifacts)
    ensures NoRepeats(ApplyHead(page, s))
  {
    hide Ids, Without, Unique;
    var ids := Ids(page.artifacts);
    UniqueWithout(s.pages, ids);
    UniqueWithout(s.ingested, ids);
    WithoutIds(s.pages, ids);
    UniqueConcat(page.artifacts, Without(s.pages, ids));
  }

  lemma MoreKeepsUnique(page: Page, s: Store)
    requires NoRepeats(s) && Unique(page.artifacts)
    ensures NoRepeats(ApplyMore(page, s))
  {
    hide Ids, Without, Unique;
    UniqueWithout(page.artifacts, Known(s));
    WithoutIds(page.artifacts, Known(s));
    UniqueConcat(s.pages, Without(page.artifacts, Known(s)));
  }

  lemma IngestKeepsUnique(items: seq<Item>, s: Store)
    requires NoRepeats(s)
    ensures NoRepeats(ApplyIngest(items, s))
  {
    hide Ids, Without, Unique, Prefix;
    var prefix := Prefix(items);
    UniquePrefix(items);
    UniqueWithout(s.ingested, Ids(prefix));
    WithoutIds(s.ingested, Ids(prefix));
    UniqueConcat(prefix, Without(s.ingested, Ids(prefix)));
  }

  /** The list shown has every known id exactly once. */
  lemma ShownOnce(s: Store)
    requires NoRepeats(s)
    ensures Unique(Merged(s.ingested, s.pages))
    ensures Ids(Merged(s.ingested, s.pages)) == Known(s)
  {
    hide Ids, Without, Unique;
    UniqueWithout(s.pages, Ids(s.ingested));
    WithoutIds(s.pages, Ids(s.ingested));
    IdsConcat(s.ingested, Without(s.pages, Ids(s.ingested)));
    UniqueConcat(s.ingested, Without(s.pages, Ids(s.ingested)));
  }

  // ---------------------------------------------------------------------------------------------
  // Whole runs
  // ---------------------------------------------------------------------------------------------

  ghost predicate IsRun(w: World, events: seq<Event>, w': World)
    decreases |events|
  {
    if events == [] then w' == w
    else Possible(w, events[0]) && IsRun(Next(w, events[0]), events[1..], w')
  }

  /** In any run: one request of a kind per generation; and from any moment on, as long as the generation
      lasts, the cursor does not go back and no id is forgotten. */
  lemma {:induction false} RunHolds(w: World, events: seq<Event>, w': World)
    requires Inv(w) && IsRun(w, events, w')
    ensures Inv(w') && w'.generation >= w.generation
    ensures w'.generation == w.generation ==>
            w.store.nextOffset <= w'.store.nextOffset && Known(w.store) <= Known(w'.store)
    decreases |events|
  {
    hide Known, Inv, Next;
    if events != [] {
      NextKeepsInv(w, events[0]);
      NextGrows(w, events[0]);
      RunHolds(Next(w, events[0]), events[1..], w');
    }
  }

  lemma NextKeepsLoaded(w: World, e: Event)
    requires Possible(w, e) && w.store.loaded && !e.Reset?
    ensures Next(w, e).store.loaded && Next(w, e).generation == w.generation
  {
    hide Without, Ids, Known, Prefix, Patched;
  }

  /** Once a first page has come in, loading again asks for nothing until the user changes. */
  lemma {:induction false} LoadsOnce(w: World, events: seq<Event>, w': World)
    requires IsRun(w, events, w') && w.store.loaded
    ensures w'.generation == w.generation ==> w'.store.loaded && Next(w', Load) == w'
    ensures w'.generation >= w.generation
    decreases |events|
  {
    hide Next;
    if events == [] {
      NothingToLoad(w);
    } else if events[0].Reset? {
      NextGrows(w, events[0]);
      GenerationsGrow(Next(w, events[0]), events[1..], w');
    } else {
      NextKeepsLoaded(w, events[0]);
      LoadsOnce(Next(w, events[0]), events[1..], w');
    }
  }

  lemma NothingToLoad(w: World)
    requires w.store.loaded
    ensures Next(w, Load) == w
  {
  }

  lemma {:induction false} GenerationsGrow(w: World, events: seq<Event>, w': World)
    requires IsRun(w, events, w')
    ensures w'.generation >= w.generation
    decreases |events|
  {
    hide Next;
    if events != [] {
      NextGrows(w, events[0]);
      GenerationsGrow(Next(w, events[0]), events[1..], w');
    }
  }

  /** A failed request says so and leaves the lists, the total and the cursor as they were. */
  lemma FailureKeepsLists(w: World, e: Event)
    requires Inv(w) && Possible(w, e) && ((e.HeadDone? && e.outcome.Err?) || (e.MoreDone? && e.outcome.Err?))
    ensures var s, t := w.store, Next(w, e).store;
            && t.ingested == s.ingested && t.pages == s.pages && t.total == s.total
            && t.nextOffset == s.nextOffset && t.loaded == s.loaded
            && (e.gen == w.generation ==>
                t.error == Some(e.outcome.error) && !(if e.HeadDone? then t.loading else t.loadingMore))
  {
    hide ApplyHead, ApplyMore;
  }

  /** With pages that name no id twice, the list shown never does either. */
  lemma {:induction false} RunKeepsUnique(w: World, events: seq<Event>, w': World)
    requires NoRepeats(w.store) && IsRun(w, events, w')
    requires forall k | 0 <= k < |events| :: Unique(PageOf(events[k]).artifacts)
    ensures NoRepeats(w'.store) && Unique(Merged(w'.store.ingested, w'.store.pages))
    decreases |events|
  {
    hide Unique, Merged, Next, PageOf;
    if events != [] {
      NextKeepsUnique(w, events[0]);
      RunKeepsUnique(Next(w, events[0]), events[1..], w');
    } else {
      ShownOnce(w.store);
    }
  }

  lemma StartHolds()
    ensures Inv(START) && NoRepeats(START.store)
  {
  }

  /** From the start, whatever happens in whatever order: the flags say what is in flight, and with pages that
      name no id twice the list shown has every known id exactly once. */
  lemma EveryRun(events: seq<Event>, w: World)
    requires IsRun(START, events, w)
    ensures Inv(w)
    ensures (forall k | 0 <= k < |events| :: Unique(PageOf(events[k]).artifacts)) ==>
              && Unique(Merged(w.store.ingested, w.store.pages))
              && Ids(Merged(w.store.ingested, w.store.pages)) == Known(w.store)
  {
    hide Unique, Merged, PageOf, Ids, Known, Inv;
    StartHolds();
    RunHolds(START, events, w);
    if forall k | 0 <= k < |events| :: Unique(PageOf(events[k]).artifacts) {
      RunKeepsUnique(START, events, w);
      ShownOnce(w.store);
    }
  }

  // ---------------------------------------------------------------------------------------------
  // Which version is shown
  // ---------------------------------------------------------------------------------------------

  lemma {:induction false} WithoutHas(list: seq<Item>, ids: set<string>, x: Item)
    ensures x in Without(list, ids) <==> x in list && x.id !in ids
  {
    if list != [] {
      WithoutHas(list[..|list| - 1], ids, x);
      assert list == list[..|list| - 1] + [list[|list| - 1]];
    }
  }

  /** After a head page: its items, and everything else as it was shown before. */
  lemma HeadItemsWin(page: Page, s: Store, x: Item)
    ensures var shown := Merged(s.ingested, s.pages);
            var after := ApplyHead(page, s);
            x in Merged(after.ingested, after.pages) <==>
                x in page.artifacts || (x in shown && x.id !in Ids(page.artifacts))
  {
    hide Ids, Without;
    var ids := Ids(page.artifacts);
    var after := ApplyHead(page, s);
    WithoutHas(s.ingested, ids, x);
    WithoutHas(s.pages, ids, x);
    WithoutHas(s.pages, Ids(s.ingested), x);
    WithoutHas(after.pages, Ids(after.ingested), x);
    WithoutIds(s.ingested, ids);
    if x in page.artifacts {
      InIds(page.artifacts, x);
    }
  }

  lemma InIds(list: seq<Item>, x: Item)
    requires x in list
    ensures x.id in Ids(list)
  {
    var k :| 0 <= k < |list| && list[k] == x;
    assert list[k].id == x.id;
  }

  lemma {:induction false} PutHas(prefix: seq<Item>, item: Item, x: Item)
    requires Unique(prefix)
    ensures x in Put(prefix, item) <==> x == item || (x in prefix && x.id != item.id)
  {
    if prefix != [] {
      var first, rest := prefix[0], prefix[1..];
      assert prefix == [first] + rest;
      assert x in rest ==> x.id != first.id by {
        if x in rest {
          var k :| 0 <= k < |rest| && rest[k] == x;
          assert prefix[k + 1] == x;
        }
      }
      if first.id != item.id {
        PutHas(rest, item, x);
      }
    }
  }

  /** Of items with the same id in one batch, the first is the one kept. */
  lemma {:induction false} FirstVersionWins(next: seq<Item>, x: Item)
    ensures x in Prefix(next) <==> exists k: nat :: FirstAt(next, k, x)
  {
    hide Put, Unique;
    if next != [] {
      var first, rest := next[0], next[1..];
      FirstVersionWins(rest, x);
      UniquePrefix(rest);
      PutHas(Prefix(rest), first, x);
      FirstOf(next, x);
    }
  }

  ghost predicate FirstAt(next: seq<Item>, k: nat, x: Item) {
    k < |next| && next[k] == x && forall j | 0 <= j < k :: next[j].id != x.id
  }

  lemma FirstOf(next: seq<Item>, x: Item)
    requires next != []
    ensures (exists k: nat :: FirstAt(next, k, x)) <==>
            x == next[0] || (x.id != next[0].id && exists k: nat :: FirstAt(next[1..], k, x))
  {
    if k: nat :| FirstAt(next, k, x) {
      if k > 0 {
        assert FirstAt(next[1..], k - 1, x);
      }
    }
    if x == next[0] {
      assert FirstAt(next, 0, x);
    } else if x.id != next[0].id {
      if k: nat :| FirstAt(next[1..], k, x) {
        assert FirstAt(next, k + 1, x);
      }
    }
  }
}
