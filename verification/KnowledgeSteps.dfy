/**
 What forgetting and remembering one document do to a canonical state.
 */
module KnowledgeSteps {
  import opened ChunkIds
  import opened KnowledgeIndex

  /** The ids of a document's chunks. */
  function OwnedIds(chunks: map<string, Chunk>, id: DocId): set<string> {
    set cid | cid in chunks && chunks[cid].documentId == id :: chunks[cid].id
  }

  /** Deletion: by chunk id from the indexes that are configured, then by document from everything. */
  function Forgotten(st: State, id: DocId, viaText: bool): State {
    var ids := OwnedIds(st.chunks, id);
    var text := if viaText && ids != {} then Retain(st.text, NotIn(ids)) else st.text;
    State(st.docs - {id}, st.chunks - ids, st.vectors - ids, Retain(text, NotOfDoc(id)))
  }

  function StoreAll(chunks: map<string, Chunk>, added: seq<Chunk>): map<string, Chunk> {
    if added == [] then chunks
    else
      var c := added[|added| - 1];
      StoreAll(chunks, added[..|added| - 1])[c.id := c]
  }

  function UpsertAll(vectors: map<string, (DocId, Vector)>, id: DocId, added: seq<Chunk>)
    : map<string, (DocId, Vector)>
  {
    if added == [] then vectors
    else
      var c := added[|added| - 1];
      UpsertAll(vectors, id, added[..|added| - 1])[c.id := (id, c.embedding)]
  }

  /** Every word gained the postings of the entries, at the end. */
  ghost predicate TextGrew(before: TextIndex, after: TextIndex, entries: seq<TextEntry>, tokenize: Tokenizer) {
    && (forall word: string :: Postings(after, word) == Postings(before, word) + PostingsFor(entries, tokenize, word))
    && ((forall word | word in before :: before[word] != []) ==> forall word | word in after :: after[word] != [])
  }

  /** What storing and indexing a document does. */
  ghost predicate Added(before: State, after: State, stored: Stored, tokenize: Tokenizer) {
    && after.docs == before.docs[stored.doc.id := stored.doc]
    && after.chunks == StoreAll(before.chunks, stored.chunks)
    && after.vectors ==
       (if stored.inVectors then UpsertAll(before.vectors, stored.doc.id, stored.chunks) else before.vectors)
    && (if stored.inText then TextGrew(before.text, after.text, EntriesOf(stored.doc, stored.chunks), tokenize)
        else after.text == before.text)
  }

  // ---------------------------------------------------------------------------------------------
  // Forgetting
  // ---------------------------------------------------------------------------------------------

  lemma OwnedIdsAre(chunks: map<string, Chunk>, latest: Memory, id: DocId)
    requires ChunksOk(chunks, latest) && AllWellStored(latest)
    ensures forall cid | cid in chunks :: cid in OwnedIds(chunks, id) <==> chunks[cid].documentId == id
    ensures forall cid | cid in OwnedIds(chunks, id) :: cid in chunks
  {
    hide WellStored;
    assert forall cid | cid in chunks :: Remembered(latest, cid, chunks[cid]);
  }

  lemma ChunksForgotten(chunks: map<string, Chunk>, latest: Memory, id: DocId)
    requires ChunksOk(chunks, latest) && AllWellStored(latest)
    ensures ChunksOk(chunks - OwnedIds(chunks, id), latest - {id})
  {
    hide OwnId, DistinctIds, OwnedIds;
    var ids := OwnedIds(chunks, id);
    OwnedIdsAre(chunks, latest, id);
    forall other, k | other in latest && other != id && 0 <= k < |latest[other].chunks|
      ensures HasChunk(chunks - ids, latest[other].chunks[k])
    {
      var c := latest[other].chunks[k];
      assert HasAll(chunks, latest[other].chunks) && HasChunk(chunks, c);
      assert WellStored(other, latest[other]) && OwnedBy(c, other);
    }
    forall cid | cid in chunks - ids ensures Remembered(latest - {id}, cid, (chunks - ids)[cid]) {
      assert Remembered(latest, cid, chunks[cid]);
    }
  }

  lemma VectorsForgotten(vectors: map<string, (DocId, Vector)>, chunks: map<string, Chunk>, latest: Memory, id: DocId)
    requires VectorsOk(vectors, chunks, latest) && ChunksOk(chunks, latest) && AllWellStored(latest)
    ensures VectorsOk(vectors - OwnedIds(chunks, id), chunks - OwnedIds(chunks, id), latest - {id})
  {
    hide OwnedIds, WellStored, HasAll, Remembered;
    OwnedIdsAre(chunks, latest, id);
  }

  /** The ids removed from the text index are none of another document's. */
  lemma OthersKeepTheirPostings(st: State, latest: Memory, tokenize: Tokenizer, id: DocId, word: string, p: Posting)
    requires Canonical(st, latest, tokenize) && p in Postings(st.text, word) && p.1 != id
    ensures p.0 !in OwnedIds(st.chunks, id)
  {
    hide TextOk, PostingsOf, Postings, VectorsOk, DocsOk, DistinctIds, OwnId, TitleId, OwnedIds;
    PostingIsOwned(st.text, latest, tokenize, word, p);
    OwnedIdsAre(st.chunks, latest, id);
    if p.0 in OwnedIds(st.chunks, id) {
      var c := st.chunks[p.0];
      assert Remembered(latest, p.0, c);
      assert WellStored(id, latest[id]) && OwnedBy(c, id);
      OwnIdsDiffer(p.0, id, p.1);
    }
  }

  /** Both filters of a deletion, as seen by one document. */
  lemma FilteredForDoc(was: seq<Posting>, ids: set<string>, byId: bool, id: DocId, other: DocId)
    requires forall p | p in was && p.1 != id :: p.0 !in ids
    ensures var first := if byId then Filter(was, NotIn(ids)) else was;
            Filter(Filter(first, NotOfDoc(id)), OfDoc(other)) == if other == id then [] else Filter(was, OfDoc(other))
  {
    hide Filter;
    var first := if byId then Filter(was, NotIn(ids)) else was;
    if other == id {
      forall x | x in Filter(first, NotOfDoc(id)) ensures !OfDoc(id)(x) {
        FilterHas(first, NotOfDoc(id), x);
      }
      FilterNone(Filter(first, NotOfDoc(id)), OfDoc(id));
    } else {
      FilterTwice(first, NotOfDoc(id), OfDoc(other));
      FilterTwice(was, NotIn(ids), OfDoc(other));
    }
  }

  lemma ForgottenPostings(st: State, id: DocId, viaText: bool, word: string)
    ensures var was, ids := Postings(st.text, word), OwnedIds(st.chunks, id);
            var first := if viaText && ids != {} then Filter(was, NotIn(ids)) else was;
            Postings(Forgotten(st, id, viaText).text, word) == Filter(first, NotOfDoc(id))
  {
    hide Postings, OwnedIds, Retain, Filter;
    var ids := OwnedIds(st.chunks, id);
    RetainFilters(st.text, NotIn(ids), word);
    RetainFilters(if viaText && ids != {} then Retain(st.text, NotIn(ids)) else st.text, NotOfDoc(id), word);
  }

  lemma PostingsForgotten(st: State, latest: Memory, tokenize: Tokenizer, id: DocId, viaText: bool, word: string)
    requires Canonical(st, latest, tokenize)
    ensures WordOk(Postings(Forgotten(st, id, viaText).text, word), latest - {id}, tokenize, word)
  {
    hide PostingsOf, Postings, Canonical, OwnedIds, Retain, Filter, Forgotten;
    var was, ids := Postings(st.text, word), OwnedIds(st.chunks, id);
    TextIsOk(st, latest, tokenize, word);
    ForgottenPostings(st, id, viaText, word);
    forall p | p in was && p.1 != id ensures p.0 !in ids {
      OthersKeepTheirPostings(st, latest, tokenize, id, word, p);
    }
    forall other: DocId
      ensures Filter(Postings(Forgotten(st, id, viaText).text, word), OfDoc(other)) ==
              if other in latest - {id} then PostingsOf(latest[other], tokenize, word) else []
    {
      FilteredForDoc(was, ids, viaText && ids != {}, id, other);
    }
  }

  lemma TextIsOk(st: State, latest: Memory, tokenize: Tokenizer, word: string)
    requires Canonical(st, latest, tokenize)
    ensures WordOk(Postings(st.text, word), latest, tokenize, word)
  {
  }

  /** Deleting a document leaves no trace of it and touches nothing else. */
  lemma ForgetKeepsCanonical(st: State, latest: Memory, tokenize: Tokenizer, id: DocId, viaText: bool)
    requires Canonical(st, latest, tokenize)
    ensures Canonical(Forgotten(st, id, viaText), latest - {id}, tokenize)
  {
    hide ChunksOk, VectorsOk, WordOk, Postings, WellStored, OwnedIds;
    ChunksForgotten(st.chunks, latest, id);
    VectorsForgotten(st.vectors, st.chunks, latest, id);
    forall word: string ensures WordOk(Postings(Forgotten(st, id, viaText).text, word), latest - {id}, tokenize, word) {
      PostingsForgotten(st, latest, tokenize, id, viaText, word);
    }
  }

  // ---------------------------------------------------------------------------------------------
  // Remembering
  // ---------------------------------------------------------------------------------------------

  ghost predicate IdIn(s: seq<Chunk>, cid: string) {
    exists k :: 0 <= k < |s| && s[k].id == cid
  }

  lemma IdsGrow(front: seq<Chunk>, last: Chunk)
    ensures forall cid :: IdIn(front + [last], cid) <==> IdIn(front, cid) || cid == last.id
  {
    var s := front + [last];
    forall cid ensures IdIn(s, cid) <==> IdIn(front, cid) || cid == last.id {
      assert s[|front|].id == last.id;
      if IdIn(front, cid) {
        var k :| 0 <= k < |front| && front[k].id == cid;
        assert s[k].id == cid;
      }
    }
  }

  lemma {:induction false} StoreAllHas(chunks: map<string, Chunk>, s: seq<Chunk>)
    requires DistinctIds(s)
    ensures HasAll(StoreAll(chunks, s), s)
    ensures forall cid | !IdIn(s, cid) :: cid in StoreAll(chunks, s) <==> cid in chunks
    ensures forall cid | !IdIn(s, cid) && cid in chunks :: StoreAll(chunks, s)[cid] == chunks[cid]
  {
    if s != [] {
      var front, c := s[..|s| - 1], s[|s| - 1];
      StoreAllHas(chunks, front);
      IdsGrow(front, c);
      assert s == front + [c];
      forall k | 0 <= k < |s| ensures HasChunk(StoreAll(chunks, s), s[k]) {
        assert k < |s| - 1 ==> HasChunk(StoreAll(chunks, front), front[k]);
      }
    }
  }

  lemma {:induction false} UpsertAllHas(vectors: map<string, (DocId, Vector)>, id: DocId, s: seq<Chunk>)
    requires DistinctIds(s)
    ensures forall k | 0 <= k < |s| ::
              s[k].id in UpsertAll(vectors, id, s) && UpsertAll(vectors, id, s)[s[k].id] == (id, s[k].embedding)
    ensures forall cid | !IdIn(s, cid) :: cid in UpsertAll(vectors, id, s) <==> cid in vectors
    ensures forall cid | !IdIn(s, cid) && cid in vectors :: UpsertAll(vectors, id, s)[cid] == vectors[cid]
  {
    if s != [] {
      var front, c := s[..|s| - 1], s[|s| - 1];
      UpsertAllHas(vectors, id, front);
      IdsGrow(front, c);
      assert s == front + [c];
      assert forall k | 0 <= k < |s| - 1 :: front[k] == s[k] && s[k].id != c.id;
    }
  }

  /** No chunk of another document is in the way of a new one. */
  lemma NewIdsAreNew(chunks: map<string, Chunk>, latest: Memory, stored: Stored, cid: string)
    requires ChunksOk(chunks, latest) && AllWellStored(latest) && WellStored(stored.doc.id, stored) &&
            stored.doc.id !in latest
    requires IdIn(stored.chunks, cid)
    ensures cid !in chunks
  {
    hide OwnId, DistinctIds;
    var k :| 0 <= k < |stored.chunks| && stored.chunks[k].id == cid;
    assert OwnedBy(stored.chunks[k], stored.doc.id);
    if cid in chunks {
      var c := chunks[cid];
      assert Remembered(latest, cid, c);
      assert WellStored(c.documentId, latest[c.documentId]) && OwnedBy(c, c.documentId);
      OwnIdsDiffer(cid, stored.doc.id, c.documentId);
    }
  }

  lemma ChunksAdded(chunks: map<string, Chunk>, latest: Memory, stored: Stored)
    requires ChunksOk(chunks, latest) && AllWellStored(latest) && WellStored(stored.doc.id, stored) &&
            stored.doc.id !in latest
    ensures ChunksOk(StoreAll(chunks, stored.chunks), latest[stored.doc.id := stored])
  {
    hide OwnId, StoreAll, IdIn, DistinctIds;
    var id := stored.doc.id;
    var all, after := StoreAll(chunks, stored.chunks), latest[id := stored];
    StoreAllHas(chunks, stored.chunks);
    forall other | other in latest ensures HasAll(all, latest[other].chunks) {
      forall k | 0 <= k < |latest[other].chunks| ensures HasChunk(all, latest[other].chunks[k]) {
        var c := latest[other].chunks[k];
        assert HasAll(chunks, latest[other].chunks) && HasChunk(chunks, c);
        if IdIn(stored.chunks, c.id) {
          NewIdsAreNew(chunks, latest, stored, c.id);
        }
      }
    }
    forall cid | cid in all ensures Remembered(after, cid, all[cid]) {
      if IdIn(stored.chunks, cid) {
        var k := IndexOf(stored.chunks, cid);
        assert HasChunk(all, stored.chunks[k]) && OwnedBy(stored.chunks[k], id);
      } else {
        assert Remembered(latest, cid, chunks[cid]);
      }
    }
  }

  ghost function IndexOf(s: seq<Chunk>, cid: string): (k: nat)
    requires IdIn(s, cid)
    ensures k < |s| && s[k].id == cid
  {
    var k :| 0 <= k < |s| && s[k].id == cid;
    k
  }

  lemma VectorsAdded(before: State, after: State, latest: Memory, stored: Stored, tokenize: Tokenizer)
    requires Canonical(before, latest, tokenize) && WellStored(stored.doc.id, stored) && stored.doc.id !in latest
    requires Added(before, after, stored, tokenize)
    ensures VectorsOk(after.vectors, after.chunks, latest[stored.doc.id := stored])
  {
    hide OwnId, StoreAll, UpsertAll, IdIn, DistinctIds, TextGrew, TextOk, DocsOk, EntriesOf;
    var id := stored.doc.id;
    StoreAllHas(before.chunks, stored.chunks);
    UpsertAllHas(before.vectors, id, stored.chunks);
    forall cid | cid in after.chunks || cid in after.vectors
      ensures cid in after.chunks
      ensures cid in after.vectors <==> Searchable(latest[id := stored], after.chunks[cid])
      ensures cid in after.vectors ==> after.vectors[cid] == (after.chunks[cid].documentId, after.chunks[cid].embedding)
    {
      VectorAdded(before, after, latest, stored, tokenize, cid);
    }
  }

  lemma VectorAdded(before: State, after: State, latest: Memory, stored: Stored, tokenize: Tokenizer, cid: string)
    requires Canonical(before, latest, tokenize) && WellStored(stored.doc.id, stored) && stored.doc.id !in latest
    requires Added(before, after, stored, tokenize) && (cid in after.chunks || cid in after.vectors)
    ensures cid in after.chunks
    ensures cid in after.vectors <==> Searchable(latest[stored.doc.id := stored], after.chunks[cid])
    ensures cid in after.vectors ==> after.vectors[cid] == (after.chunks[cid].documentId, after.chunks[cid].embedding)
  {
    hide OwnId, StoreAll, UpsertAll, IdIn, DistinctIds, TextGrew, TextOk, DocsOk, EntriesOf;
    StoreAllHas(before.chunks, stored.chunks);
    UpsertAllHas(before.vectors, stored.doc.id, stored.chunks);
    if IdIn(stored.chunks, cid) {
      var k := IndexOf(stored.chunks, cid);
      assert HasChunk(after.chunks, stored.chunks[k]) && OwnedBy(stored.chunks[k], stored.doc.id);
      NewIdsAreNew(before.chunks, latest, stored, cid);
    } else {
      assert cid in before.chunks;
      assert Remembered(latest, cid, before.chunks[cid]);
    }
  }

  lemma {:induction false} PostingsHaveDoc(entries: seq<TextEntry>, tokenize: Tokenizer, word: string, id: DocId,
      other: DocId)
    requires forall k | 0 <= k < |entries| :: entries[k].documentId == id
    ensures Filter(PostingsFor(entries, tokenize, word), OfDoc(other)) ==
            if other == id then PostingsFor(entries, tokenize, word) else []
  {
    var all := PostingsFor(entries, tokenize, word);
    forall p | p in all ensures p.1 == id {
      PostingsComeFrom(entries, tokenize, word, p);
    }
    if other == id {
      FilterAll(all, OfDoc(other));
    } else {
      FilterNone(all, OfDoc(other));
    }
  }

  lemma WordAdded(before: seq<Posting>, latest: Memory, stored: Stored, tokenize: Tokenizer, word: string)
    requires WordOk(before, latest, tokenize, word) && WellStored(stored.doc.id, stored) && stored.doc.id !in latest
    ensures WordOk(before + PostingsOf(stored, tokenize, word), latest[stored.doc.id := stored], tokenize, word)
  {
    hide PostingsFor, OwnId, DistinctIds;
    var id := stored.doc.id;
    var more := PostingsOf(stored, tokenize, word);
    forall other: DocId
      ensures Filter(before + more, OfDoc(other)) == Filter(before, OfDoc(other)) + if other == id then more else []
    {
      FilterConcat(before, more, OfDoc(other));
      if stored.inText {
        assert forall k | 0 <= k < |stored.chunks| :: OwnedBy(stored.chunks[k], id);
        PostingsHaveDoc(EntriesOf(stored.doc, stored.chunks), tokenize, word, id, other);
      } else {
        FilterNone(more, OfDoc(other));
      }
    }
  }

  lemma TextAdded(before: State, after: State, latest: Memory, stored: Stored, tokenize: Tokenizer)
    requires TextOk(before.text, latest, tokenize) && WellStored(stored.doc.id, stored) && stored.doc.id !in latest
    requires Added(before, after, stored, tokenize)
    ensures TextOk(after.text, latest[stored.doc.id := stored], tokenize)
  {
    hide WordOk, WellStored, StoreAll, UpsertAll, PostingsFor, EntriesOf, Postings;
    forall word: string ensures WordOk(Postings(after.text, word), latest[stored.doc.id := stored], tokenize, word) {
      WordAdded(Postings(before.text, word), latest, stored, tokenize, word);
      assert Postings(after.text, word) == Postings(before.text, word) + PostingsOf(stored, tokenize, word);
    }
  }

  /** Ingesting a document not known yet adds what it should and touches nothing else. */
  lemma AddKeepsCanonical(before: State, after: State, latest: Memory, stored: Stored, tokenize: Tokenizer)
    requires Canonical(before, latest, tokenize) && WellStored(stored.doc.id, stored) && stored.doc.id !in latest
    requires Added(before, after, stored, tokenize)
    ensures Canonical(after, latest[stored.doc.id := stored], tokenize)
  {
    hide ChunksOk, VectorsOk, TextOk, WellStored, StoreAll, UpsertAll, TextGrew, EntriesOf;
    ChunksAdded(before.chunks, latest, stored);
    VectorsAdded(before, after, latest, stored, tokenize);
    TextAdded(before, after, latest, stored, tokenize);
  }

  /** Nothing in the stores is without its document, and vectors are keyed by chunks. */
  lemma EverythingBelongs(st: State, latest: Memory, tokenize: Tokenizer)
    requires Canonical(st, latest, tokenize)
    ensures forall cid | cid in st.chunks :: st.chunks[cid].documentId in st.docs
    ensures forall cid | cid in st.vectors :: cid in st.chunks && st.vectors[cid].0 in st.docs
    ensures forall word, p | word in st.text && p in st.text[word] :: p.1 in st.docs
  {
    hide TextOk, WellStored, HasAll;
    assert forall cid | cid in st.chunks :: Remembered(latest, cid, st.chunks[cid]);
    forall word, p | word in st.text && p in st.text[word] ensures p.1 in st.docs {
      assert p in Postings(st.text, word);
      PostingIsOwned(st.text, latest, tokenize, word, p);
    }
  }

  /** A document that is not remembered, deleted ones among them, has nothing anywhere. */
  lemma NoTrace(st: State, latest: Memory, tokenize: Tokenizer, id: DocId)
    requires Canonical(st, latest, tokenize) && id !in latest
    ensures id !in st.docs
    ensures forall cid | cid in st.chunks :: st.chunks[cid].documentId != id
    ensures forall cid | cid in st.vectors :: st.vectors[cid].0 != id
    ensures forall word, p | word in st.text && p in st.text[word] :: p.1 != id && p.0 != TitleId(id)
  {
    hide TextOk, WellStored, HasAll, Searchable, TitleId, OwnId, ChunksOk, VectorsOk;
    EverythingBelongs(st, latest, tokenize);
    NoTitleLeft(st, latest, tokenize, id);
  }

  lemma NoTitleLeft(st: State, latest: Memory, tokenize: Tokenizer, id: DocId)
    requires Canonical(st, latest, tokenize) && id !in latest
    ensures forall word, p | word in st.text && p in st.text[word] :: p.0 != TitleId(id)
  {
    hide TextOk, HasAll, TitleId, OwnId, ChunksOk, VectorsOk, DocsOk, DistinctIds;
    forall word, p | word in st.text && p in st.text[word] ensures p.0 != TitleId(id) {
      assert p in Postings(st.text, word);
      PostingIsOwned(st.text, latest, tokenize, word, p);
      if p.0 != TitleId(p.1) {
        var k :| 0 <= k < |latest[p.1].chunks| && p.0 == latest[p.1].chunks[k].id;
        assert WellStored(p.1, latest[p.1]) && OwnedBy(latest[p.1].chunks[k], p.1);
        OwnIdsDiffer(p.0, p.1, id);
      } else {
        TitlesDiffer(p.1, id);
      }
    }
  }

  lemma TitlesDiffer(a: DocId, b: DocId)
    requires a != b
    ensures TitleId(a) != TitleId(b)
  {
    hide FullId, TitleId, MakeChunkId, IsHash;
    ZeroHash();
    IdKindsAreDisjoint(a, 0, "00000000", a, b);
  }

  // ---------------------------------------------------------------------------------------------
  // The remembered documents fix the state
  // ---------------------------------------------------------------------------------------------

  /** The index as a bag of postings. */
  ghost predicate SamePostings(a: TextIndex, b: TextIndex) {
    a.Keys == b.Keys && forall word | word in a :: multiset(a[word]) == multiset(b[word])
  }

  lemma SameBag(a: seq<Posting>, b: seq<Posting>, latest: Memory, tokenize: Tokenizer, word: string)
    requires WordOk(a, latest, tokenize, word) && WordOk(b, latest, tokenize, word)
    ensures multiset(a) == multiset(b)
  {
    hide PostingsOf, Filter;
    forall p: Posting ensures multiset(a)[p] == multiset(b)[p] {
      CountInFilter(a, p);
      CountInFilter(b, p);
    }
  }

  lemma SameText(a: TextIndex, b: TextIndex, latest: Memory, tokenize: Tokenizer)
    requires TextOk(a, latest, tokenize) && TextOk(b, latest, tokenize)
    ensures SamePostings(a, b)
  {
    hide WordOk;
    forall word: string ensures multiset(Postings(a, word)) == multiset(Postings(b, word)) {
      SameBag(Postings(a, word), Postings(b, word), latest, tokenize, word);
    }
    forall word: string ensures word in a <==> word in b {
      assert |multiset(Postings(a, word))| == |multiset(Postings(b, word))|;
    }
    forall word | word in a ensures multiset(a[word]) == multiset(b[word]) {
      assert Postings(a, word) == a[word] && Postings(b, word) == b[word];
    }
  }

  /** Two histories that end with the same documents, each last ingested the same way, leave the same state. */
  lemma HistoryDoesNotMatter(a: State, b: State, latest: Memory, tokenize: Tokenizer)
    requires Canonical(a, latest, tokenize) && Canonical(b, latest, tokenize)
    ensures a.docs == b.docs && a.chunks == b.chunks && a.vectors == b.vectors
    ensures SamePostings(a.text, b.text)
  {
    hide TextOk, AllWellStored, Searchable;
    SameText(a.text, b.text, latest, tokenize);
    SameChunks(a.chunks, b.chunks, latest);
    assert a.docs == b.docs;
    assert a.vectors == b.vectors;
  }

  lemma SameChunks(a: map<string, Chunk>, b: map<string, Chunk>, latest: Memory)
    requires ChunksOk(a, latest) && ChunksOk(b, latest)
    ensures a == b
  {
    ChunkIsShared(a, b, latest);
    ChunkIsShared(b, a, latest);
  }

  lemma ChunkIsShared(a: map<string, Chunk>, b: map<string, Chunk>, latest: Memory)
    requires ChunksOk(a, latest) && ChunksOk(b, latest)
    ensures forall cid | cid in a :: cid in b && b[cid] == a[cid]
  {
    forall cid | cid in a ensures cid in b && b[cid] == a[cid] {
      var c := a[cid];
      assert Remembered(latest, cid, c) && HasAll(b, latest[c.documentId].chunks);
      var k :| 0 <= k < |latest[c.documentId].chunks| && latest[c.documentId].chunks[k] == c;
      assert HasChunk(b, latest[c.documentId].chunks[k]);
    }
  }
}
