/**
 The ingestion pipeline over the in-memory backend: ingest replaces a document, delete removes it from
 every index.  Chunking, hashing and tokenizing are parameters; what the embedding service answers is an
 argument of each ingestion.
 */
module Ingestion {
  import opened Common
  import opened ChunkIds
  import opened KnowledgeIndex
  import opened KnowledgeSteps

  datatype Mode = Full | VectorOnly | TextOnly | GraphOnly | VectorAndText | VectorAndGraph | TextAndGraph

  predicate RequiresChunks(mode: Mode) {
    !mode.GraphOnly?
  }

  predicate RequiresEmbed(mode: Mode) {
    mode.Full? || mode.VectorOnly? || mode.VectorAndText? || mode.VectorAndGraph?
  }

  predicate RequiresVector(mode: Mode) {
    mode.Full? || mode.VectorOnly? || mode.VectorAndText? || mode.VectorAndGraph?
  }

  predicate RequiresText(mode: Mode) {
    mode.Full? || mode.TextOnly? || mode.VectorAndText? || mode.TextAndGraph?
  }

  datatype Failure = NotFound | EmbeddingError

  /** How a knowledge base is set up. */
  datatype Config = Config(
    hasVectors: bool,
    hasText: bool,
    cut: Document -> seq<string>,
    digest: string -> string,
    tokenize: Tokenizer)

  ghost predicate GoodConfig(config: Config) {
    forall text: string :: IsHash(config.digest(text))
  }

  function CutChunks(config: Config, doc: Document): (r: seq<Chunk>)
    ensures |r| == |config.cut(doc)|
  {
    var texts := config.cut(doc);
    seq(|texts|, i requires 0 <= i < |texts| =>
      Chunk(MakeChunkId(doc.id, i, config.digest(texts[i])), doc.id, texts[i], i, []))
  }

  /** The embeddings there are, chunk by chunk. */
  function WithEmbeddings(chunks: seq<Chunk>, vectors: seq<Vector>): (r: seq<Chunk>)
    ensures |r| == |chunks|
    ensures forall i | 0 <= i < |r| ::
            r[i] == chunks[i].(embedding := if i < |vectors| then vectors[i] else chunks[i].embedding)
  {
    seq(|chunks|, i requires 0 <= i < |chunks| =>
      if i < |vectors| then chunks[i].(embedding := vectors[i]) else chunks[i])
  }

  /** What an ingestion will leave of the document, if it succeeds. */
  function Outcome(config: Config, doc: Document, mode: Mode, embedded: Option<seq<Vector>>): Option<Stored> {
    var inVectors, inText := RequiresVector(mode) && config.hasVectors, RequiresText(mode) && config.hasText;
    if !RequiresChunks(mode) then
      Some(Stored(doc, [Chunk(FullId(doc.id), doc.id, doc.content, 0, [])], inVectors, inText))
    else if config.cut(doc) == [] then Some(Stored(doc, [], false, false))
    else if !RequiresEmbed(mode) then Some(Stored(doc, CutChunks(config, doc), inVectors, inText))
    else if embedded.None? then None
    else Some(Stored(doc, WithEmbeddings(CutChunks(config, doc), embedded.value), inVectors, inText))
  }

  /** What a document's ingestion makes of the remembered documents: without embeddings the old version is
      gone and there is no new one. */
  function Next(config: Config, latest: Memory, doc: Document, mode: Mode, embedded: Option<seq<Vector>>): Memory {
    match Outcome(config, doc, mode, embedded)
    case None => latest - {doc.id}
    case Some(stored) => latest[doc.id := stored]
  }

  lemma CutChunksAreOwned(config: Config, doc: Document)
    requires GoodConfig(config)
    ensures DistinctIds(CutChunks(config, doc))
    ensures forall k | 0 <= k < |CutChunks(config, doc)| :: OwnedBy(CutChunks(config, doc)[k], doc.id)
  {
    hide MakeChunkId, IsHash;
    var texts := config.cut(doc);
    var chunks := CutChunks(config, doc);
    forall i, j | 0 <= i < j < |chunks| ensures chunks[i].id != chunks[j].id {
      ChunkIdIsInjective(doc.id, i, config.digest(texts[i]), doc.id, j, config.digest(texts[j]));
    }
    forall k | 0 <= k < |chunks| ensures OwnedBy(chunks[k], doc.id) {
      assert chunks[k].id == MakeChunkId(doc.id, k, config.digest(texts[k])) && IsHash(config.digest(texts[k]));
    }
  }

  /** Whatever is ingested, its chunk ids are distinct and its own. */
  lemma OutcomeIsWellStored(config: Config, doc: Document, mode: Mode, embedded: Option<seq<Vector>>)
    requires GoodConfig(config) && Outcome(config, doc, mode, embedded).Some?
    ensures WellStored(doc.id, Outcome(config, doc, mode, embedded).value)
  {
    hide CutChunks;
    CutChunksAreOwned(config, doc);
  }

  /** The ingestion asks the embedding service: the mode has vectors, and there is a chunk to embed. */
  ghost predicate Embeds(config: Config, doc: Document, mode: Mode) {
    mode in {Full, VectorOnly, VectorAndText, VectorAndGraph} && config.cut(doc) != []
  }

  /** The one stand-in for a document that is not chunked. */
  ghost predicate IsWhole(doc: Document, c: Chunk) {
    c.id == doc.id + "__full" && c.documentId == doc.id && c.text == doc.content && c.sequence == 0 && c.embedding == []
  }

  /** Chunk number `k` as the chunker cut it, with the embedding there is for it. */
  ghost predicate IsCut(config: Config, doc: Document, mode: Mode, embedded: Option<seq<Vector>>, c: Chunk, k: nat)
    requires k < |config.cut(doc)|
  {
    && c.text == config.cut(doc)[k] && c.documentId == doc.id && c.sequence == k
    && c.id == MakeChunkId(doc.id, k, config.digest(c.text))
    && c.embedding ==
       if Embeds(config, doc, mode) && embedded.Some? && k < |embedded.value| then embedded.value[k] else []
  }

  /** The only ingestion that fails is one that wants embeddings and gets none. */
  lemma OutcomeIffEmbedded(config: Config, doc: Document, mode: Mode, embedded: Option<seq<Vector>>)
    ensures Outcome(config, doc, mode, embedded).Some? <==> !Embeds(config, doc, mode) || embedded.Some?
  {
    hide CutChunks;
  }

  /** Only chunks that the chunker made are indexed, and only with embeddings as vectors; an enabled index of
      a mode that wants it gets every document that has chunks. */
  lemma OnlyRealChunksAreIndexed(config: Config, latest: Memory, doc: Document, mode: Mode,
      embedded: Option<seq<Vector>>)
    requires doc.id in Next(config, latest, doc, mode, embedded)
    ensures var stored := Next(config, latest, doc, mode, embedded)[doc.id];
            stored.doc == doc
    ensures var stored := Next(config, latest, doc, mode, embedded)[doc.id];
            mode == GraphOnly ==> |stored.chunks| == 1 && IsWhole(doc, stored.chunks[0])
    ensures var stored := Next(config, latest, doc, mode, embedded)[doc.id];
            mode != GraphOnly ==> |stored.chunks| == |config.cut(doc)|
    ensures var stored := Next(config, latest, doc, mode, embedded)[doc.id];
            mode != GraphOnly ==>
              forall k | 0 <= k < |stored.chunks| :: IsCut(config, doc, mode, embedded, stored.chunks[k], k)
    ensures var stored := Next(config, latest, doc, mode, embedded)[doc.id];
            stored.inVectors <==> config.hasVectors && Embeds(config, doc, mode)
    ensures var stored := Next(config, latest, doc, mode, embedded)[doc.id];
            stored.inText <==>
              config.hasText && mode in {Full, TextOnly, VectorAndText, TextAndGraph} && config.cut(doc) != []
  {
    hide MakeChunkId;
  }

  function IdSet(s: seq<Chunk>): set<string> {
    set k | 0 <= k < |s| :: s[k].id
  }

  lemma IdSetGrows(front: seq<Chunk>, last: Chunk)
    ensures IdSet(front + [last]) == IdSet(front) + {last.id}
  {
    var s := front + [last];
    forall x | x in IdSet(s) ensures x in IdSet(front) + {last.id} {
      var k :| 0 <= k < |s| && s[k].id == x;
      assert k < |front| ==> front[k].id == x;
    }
    forall x | x in IdSet(front) ensures x in IdSet(s) {
      var k :| 0 <= k < |front| && front[k].id == x;
      assert s[k].id == x;
    }
    assert s[|front|].id == last.id;
  }

  lemma {:induction false} DistinctIdsCount(s: seq<Chunk>)
    requires DistinctIds(s)
    ensures |IdSet(s)| == |s|
  {
    if s != [] {
      var front, last := s[..|s| - 1], s[|s| - 1];
      DistinctIdsCount(front);
      assert s == front + [last];
      IdSetGrows(front, last);
      assert last.id !in IdSet(front);
    }
  }

  /** A document owns exactly the chunks it was last stored with. */
  lemma OwnedAreLatest(chunks: map<string, Chunk>, latest: Memory, id: DocId)
    requires ChunksOk(chunks, latest) && AllWellStored(latest) && id in latest
    ensures OwnedIds(chunks, id) == IdSet(latest[id].chunks)
    ensures |OwnedIds(chunks, id)| == |latest[id].chunks|
  {
    hide OwnId, DistinctIds, OwnedIds;
    OwnedIdsAre(chunks, latest, id);
    var own := latest[id].chunks;
    assert WellStored(id, latest[id]) && HasAll(chunks, own);
    forall x | x in IdSet(own) ensures x in OwnedIds(chunks, id) {
      var k :| 0 <= k < |own| && own[k].id == x;
      assert HasChunk(chunks, own[k]) && OwnedBy(own[k], id);
    }
    forall x | x in OwnedIds(chunks, id) ensures x in IdSet(own) {
      assert Remembered(latest, x, chunks[x]);
      var k :| 0 <= k < |own| && own[k] == chunks[x];
      assert own[k].id == x;
    }
    DistinctIdsCount(own);
  }

  class KnowledgeBase {
    var docs: map<DocId, Document>
    var chunks: map<string, Chunk>
    var vectors: map<string, (DocId, Vector)>
    var text: TextIndex
    const config: Config
    /** What the last successful ingestion of each document not deleted since left. */
    ghost var latest: Memory

    ghost function Contents(): State
      reads this
    {
      State(docs, chunks, vectors, text)
    }

    /** The stores hold what `latest` says, exactly. */
    ghost predicate Valid()
      reads this
    {
      GoodConfig(config) && Canonical(Contents(), latest, config.tokenize)
    }

    constructor (config: Config)
      requires GoodConfig(config)
      ensures Valid() && latest == map[] && this.config == config
    {
      docs, chunks, vectors, text := map[], map[], map[], map[];
      this.config := config;
      latest := map[];
      new;
      EmptyIsCanonical(config.tokenize);
    }

    // The backend

    method StoreDocument(doc: Document, added: seq<Chunk>)
      modifies `docs, `chunks
      ensures docs == old(docs)[doc.id := doc] && chunks == StoreAll(old(chunks), added)
    {
      docs := docs[doc.id := doc];
      for i := 0 to |added|
        invariant docs == old(docs)[doc.id := doc] && chunks == StoreAll(old(chunks), added[..i])
      {
        assert added[..i + 1][..i] == added[..i];
        chunks := chunks[added[i].id := added[i]];
      }
      assert added[..|added|] == added;
    }

    method UpsertVectors(id: DocId, added: seq<Chunk>)
      modifies `vectors
      ensures vectors == UpsertAll(old(vectors), id, added)
    {
      for i := 0 to |added|
        invariant vectors == UpsertAll(old(vectors), id, added[..i])
      {
        assert added[..i + 1][..i] == added[..i];
        vectors := vectors[added[i].id := (id, added[i].embedding)];
      }
      assert added[..|added|] == added;
    }

    method IndexText(entries: seq<TextEntry>)
      modifies `text
      ensures TextGrew(old(text), text, entries, config.tokenize)
    {
      hide TextGrew;
      NothingGrew(text, config.tokenize);
      for i := 0 to |entries|
        invariant TextGrew(old(text), text, entries[..i], config.tokenize)
      {
        var e := entries[i];
        var tokens := config.tokenize(e.text);
        ghost var before := text;
        NoTokenYet(text, e);
        for j := 0 to |tokens|
          invariant EntryGrew(before, text, tokens[..j], e)
        {
          EntryGrows(before, text, tokens, j, e);
          text := text[tokens[j] := Postings(text, tokens[j]) + [(e.id, e.documentId)]];
        }
        assert tokens[..|tokens|] == tokens;
        EntryIsDone(old(text), before, text, entries, i, config.tokenize);
      }
      assert entries[..|entries|] == entries;
    }

    /** Keep some postings of each word, in order, and then no word without postings. */
    method RetainPostings(keep: Posting -> bool)
      modifies `text
      ensures forall word: string :: Postings(text, word) == Filter(Postings(old(text), word), keep)
      ensures forall word | word in text :: text[word] != []
    {
      hide Filter;
      var words := text.Keys;
      while words != {}
        invariant words <= text.Keys == old(text).Keys
        invariant forall w | w in text :: text[w] == if w in words then old(text)[w] else Filter(old(text)[w], keep)
      {
        var word :| word in words;
        words := words - {word};
        var kept := RetainList(text[word], keep);
        text := text[word := kept];
      }
      words := text.Keys;
      ghost var filtered := text;
      while words != {}
        invariant words <= text.Keys
        invariant forall w: string :: Postings(text, w) == Postings(filtered, w)
        invariant forall w | w in text && w !in words :: text[w] != []
      {
        var word :| word in words;
        words := words - {word};
        if text[word] == [] {
          text := text - {word};
        }
      }
      FilterNothing(keep);
    }

    /** Remove the postings of these ids: what is left of each word are the others, in order. */
    method RemoveText(ids: set<string>)
      modifies `text
      ensures forall word: string :: Postings(text, word) == Filter(Postings(old(text), word), NotIn(ids))
      ensures forall word: string, p :: p in Postings(text, word) <==> p in Postings(old(text), word) && p.0 !in ids
      ensures forall word | word in text :: text[word] != []
    {
      hide Postings, Filter;
      RetainPostings(NotIn(ids));
      forall word: string, p: Posting
        ensures p in Postings(text, word) <==> p in Postings(old(text), word) && p.0 !in ids
      {
        FilterHas(Postings(old(text), word), NotIn(ids), p);
      }
    }

    method RemoveVectors(ids: set<string>)
      modifies `vectors
      ensures vectors == old(vectors) - ids
    {
      var left := ids;
      while left != {}
        invariant left <= ids && vectors == old(vectors) - (ids - left)
      {
        var id :| id in left;
        left := left - {id};
        vectors := vectors - {id};
      }
    }

    /** The ids of a document's chunks. */
    method ChunkIdsOf(id: DocId) returns (ids: set<string>)
      ensures ids == OwnedIds(chunks, id)
    {
      ids := {};
      var left := chunks.Keys;
      while left != {}
        invariant left <= chunks.Keys
        invariant ids == set cid | cid in chunks && cid !in left && chunks[cid].documentId == id :: chunks[cid].id
      {
        var cid :| cid in left;
        left := left - {cid};
        if chunks[cid].documentId == id {
          ids := ids + {chunks[cid].id};
        }
      }
    }

    /** Remove a document with its chunks, their vectors and every posting of it. */
    method DeleteStored(id: DocId)
      modifies `docs, `chunks, `vectors, `text
      ensures docs == old(docs) - {id}
      ensures chunks == old(chunks) - OwnedIds(old(chunks), id) && vectors == old(vectors) - OwnedIds(old(chunks), id)
      ensures KeyedById(old(chunks)) ==>
                forall cid :: cid in chunks <==> cid in old(chunks) && old(chunks)[cid].documentId != id
      ensures forall word: string :: Postings(text, word) == Filter(Postings(old(text), word), NotOfDoc(id))
      ensures forall word: string, p :: p in Postings(text, word) <==> p in Postings(old(text), word) && p.1 != id
      ensures forall word | word in text :: text[word] != []
    {
      hide Postings, Filter;
      docs := docs - {id};
      var ids := ChunkIdsOf(id);
      var left := ids;
      while left != {}
        invariant left <= ids && chunks == old(chunks) - (ids - left)
        invariant docs == old(docs) - {id} && vectors == old(vectors) && text == old(text)
      {
        var cid :| cid in left;
        left := left - {cid};
        chunks := chunks - {cid};
      }
      RemoveVectors(ids);
      RetainPostings(NotOfDoc(id));
      forall word: string, p: Posting
        ensures p in Postings(text, word) <==> p in Postings(old(text), word) && p.1 != id
      {
        FilterHas(Postings(old(text), word), NotOfDoc(id), p);
      }
    }

    // The pipeline

    /** Remove a document from everything; the report counts its chunks. */
    method DeleteDocument(id: DocId) returns (r: Result<nat, Failure>)
      requires Valid()
      modifies this
      ensures Valid()
      ensures r == if id in old(latest) then Ok(|old(latest)[id].chunks|) else Err(NotFound)
      ensures latest == old(latest) - {id}
    {
      hide Canonical, OwnedIds, Retain, Postings, Filter;
      KnownIsStored(Contents(), latest, config.tokenize);
      if id !in docs {
        assert latest - {id} == latest;
        return Err(NotFound);
      }
      var ids := ChunkIdsOf(id);
      if config.hasVectors && ids != {} {
        RemoveVectors(ids);
      }
      ghost var before := text;
      if config.hasText && ids != {} {
        RemoveText(ids);
        PostingsFixIndex(before, text, NotIn(ids));
      }
      ghost var between := text;
      DeleteStored(id);
      PostingsFixIndex(between, text, NotOfDoc(id));
      assert Contents() == Forgotten(old(Contents()), id, config.hasText);
      ForgetKeepsCanonical(old(Contents()), latest, config.tokenize, id, config.hasText);
      latest := latest - {id};
      return Ok(|ids|);
    }

    /** Ingest a document, replacing an older version of it. */
    method IngestWithMode(doc: Document, mode: Mode, embedded: Option<seq<Vector>>) returns (r: Result<(), Failure>)
      requires Valid()
      modifies this
      ensures Valid()
      ensures latest == Next(config, old(latest), doc, mode, embedded)
      ensures forall id | id in latest :: IsIndexed(text, latest[id], config.tokenize)
      ensures r == if Embeds(config, doc, mode) && embedded.None? then Err(EmbeddingError) else Ok(())
    {
      hide Canonical, Outcome, OwnedIds, IsIndexed, Embeds;
      KnownIsStored(Contents(), latest, config.tokenize);
      if doc.id in docs {
        var deleted := DeleteDocument(doc.id);
      }
      assert latest == old(latest) - {doc.id};
      r := AddDocument(doc, mode, embedded);
      AllIndexed(Contents(), latest, config.tokenize);
    }

    /** The rest of an ingestion, the document being unknown now. */
    method AddDocument(doc: Document, mode: Mode, embedded: Option<seq<Vector>>) returns (r: Result<(), Failure>)
      requires Valid() && doc.id !in latest
      modifies this
      ensures Valid()
      ensures latest == Next(config, old(latest), doc, mode, embedded)
      ensures r == if Embeds(config, doc, mode) && embedded.None? then Err(EmbeddingError) else Ok(())
    {
      hide Canonical, CutChunks, WithEmbeddings, StoreAll, UpsertAll, TextGrew, EntriesOf, WellStored, OwnedIds;
      OutcomeIffEmbedded(config, doc, mode, embedded);
      hide Embeds;
      ghost var before := Contents();
      var made;
      if RequiresChunks(mode) {
        made := CutChunks(config, doc);
        if made == [] {
          StoreDocument(doc, []);
          Remember(before, Stored(doc, [], false, false), mode, embedded);
          return Ok(());
        }
      } else {
        made := [Chunk(FullId(doc.id), doc.id, doc.content, 0, [])];
      }
      if RequiresEmbed(mode) && RequiresChunks(mode) {
        if embedded.None? {
          assert latest == latest - {doc.id};
          return Err(EmbeddingError);
        }
        made := WithEmbeddings(made, embedded.value);
      }
      ghost var stored :=
        Stored(doc, made, RequiresVector(mode) && config.hasVectors, RequiresText(mode) && config.hasText);
      assert Outcome(config, doc, mode, embedded) == Some(stored);
      hide Outcome;
      StoreDocument(doc, made);
      if RequiresVector(mode) && config.hasVectors {
        UpsertVectors(doc.id, made);
      }
      if RequiresText(mode) && config.hasText {
        IndexText(EntriesOf(doc, made));
      }
      Remember(before, stored, mode, embedded);
      return Ok(());
    }

    /** Ingest documents one by one, whatever happens to the others. */
    method IngestBatch(batch: seq<(Document, Option<seq<Vector>>)>) returns (results: seq<Result<(), Failure>>)
      requires Valid()
      modifies this
      ensures Valid()
      ensures latest == After(config, old(latest), batch)
      ensures |results| == |batch|
      ensures forall i | 0 <= i < |batch| :: results[i].Ok? <==> config.cut(batch[i].0) == [] || batch[i].1.Some?
    {
      hide Canonical, Outcome, Next;
      results := [];
      for i := 0 to |batch|
        invariant Valid() && latest == After(config, old(latest), batch[..i]) && |results| == i
        invariant forall j | 0 <= j < i :: results[j].Ok? <==> config.cut(batch[j].0) == [] || batch[j].1.Some?
      {
        assert batch[..i + 1][..i] == batch[..i];
        var r := IngestWithMode(batch[i].0, Full, batch[i].1);
        results := results + [r];
      }
      assert batch[..|batch|] == batch;
    }

    ghost method Remember(before: State, stored: Stored, mode: Mode, embedded: Option<seq<Vector>>)
      requires GoodConfig(config) && Canonical(before, latest, config.tokenize) && stored.doc.id !in latest
      requires Outcome(config, stored.doc, mode, embedded) == Some(stored)
      requires Added(before, Contents(), stored, config.tokenize)
      modifies `latest
      ensures Valid() && latest == old(latest)[stored.doc.id := stored]
    {
      hide Canonical, Added, Outcome, WellStored;
      OutcomeIsWellStored(config, stored.doc, mode, embedded);
      AddKeepsCanonical(before, Contents(), latest, stored, config.tokenize);
      latest := latest[stored.doc.id := stored];
    }
  }

  /** The remembered documents after a batch. */
  function After(config: Config, latest: Memory, batch: seq<(Document, Option<seq<Vector>>)>): Memory {
    if batch == [] then latest
    else
      var (doc, embedded) := batch[|batch| - 1];
      Next(config, After(config, latest, batch[..|batch| - 1]), doc, Full, embedded)
  }

  ghost predicate KeyedById(chunks: map<string, Chunk>) {
    forall cid | cid in chunks :: chunks[cid].id == cid
  }

  method RetainList(s: seq<Posting>, keep: Posting -> bool) returns (r: seq<Posting>)
    ensures r == Filter(s, keep)
  {
    r := [];
    for i := 0 to |s|
      invariant r == Filter(s[..i], keep)
    {
      assert s[..i + 1][..i] == s[..i];
      if keep(s[i]) {
        r := r + [s[i]];
      }
    }
    assert s[..|s|] == s;
  }

  lemma FilterNothing(keep: Posting -> bool)
    ensures Filter([], keep) == []
  {
  }

  /** An index without empty words is fixed by the postings of its words. */
  lemma PostingsFixIndex(before: TextIndex, after: TextIndex, keep: Posting -> bool)
    requires forall word: string :: Postings(after, word) == Filter(Postings(before, word), keep)
    requires forall word | word in after :: after[word] != []
    ensures after == Retain(before, keep)
  {
    var kept := Retain(before, keep);
    FilterNothing(keep);
    forall word: string ensures word in after <==> word in kept {
      RetainFilters(before, keep, word);
      assert Postings(after, word) == Postings(kept, word);
    }
    forall word | word in after ensures after[word] == kept[word] {
      assert Postings(after, word) == after[word];
    }
  }

  lemma KnownIsStored(st: State, latest: Memory, tokenize: Tokenizer)
    requires Canonical(st, latest, tokenize)
    ensures st.docs.Keys == latest.Keys
    ensures forall id | id in latest :: |OwnedIds(st.chunks, id)| == |latest[id].chunks|
  {
    hide ChunksOk, AllWellStored, OwnedIds;
    forall id | id in latest ensures |OwnedIds(st.chunks, id)| == |latest[id].chunks| {
      OwnedAreLatest(st.chunks, latest, id);
    }
  }

  lemma AllIndexed(st: State, latest: Memory, tokenize: Tokenizer)
    requires Canonical(st, latest, tokenize)
    ensures forall id | id in latest :: IsIndexed(st.text, latest[id], tokenize)
  {
    hide Canonical, IsIndexed;
    forall id | id in latest ensures IsIndexed(st.text, latest[id], tokenize) {
      DocumentsAreIndexed(st, latest, tokenize, id);
    }
  }

  lemma NothingGrew(text: TextIndex, tokenize: Tokenizer)
    ensures TextGrew(text, text, [], tokenize)
  {
  }

  /** Part of one entry is indexed. */
  ghost predicate EntryGrew(before: TextIndex, after: TextIndex, tokens: seq<string>, e: TextEntry) {
    && (forall word: string ::
        Postings(after, word) == Postings(before, word) + Hits(tokens, word, (e.id, e.documentId)))
    && ((forall word | word in before :: before[word] != []) ==> forall word | word in after :: after[word] != [])
  }

  lemma NoTokenYet(text: TextIndex, e: TextEntry)
    ensures EntryGrew(text, text, [], e)
  {
  }

  lemma EntryGrows(before: TextIndex, text: TextIndex, tokens: seq<string>, j: nat, e: TextEntry)
    requires j < |tokens| && EntryGrew(before, text, tokens[..j], e)
    ensures EntryGrew(before, text[tokens[j] := Postings(text, tokens[j]) + [(e.id, e.documentId)]], tokens[..j + 1], e)
  {
    hide Postings, Hits;
    var p := (e.id, e.documentId);
    var after := text[tokens[j] := Postings(text, tokens[j]) + [p]];
    forall word: string ensures Postings(after, word) == Postings(before, word) + Hits(tokens[..j + 1], word, p) {
      assert Postings(text, word) == Postings(before, word) + Hits(tokens[..j], word, p);
      OneMoreHit(text, tokens, j, word, p);
    }
  }

  lemma OneMoreHit(text: TextIndex, tokens: seq<string>, j: nat, word: string, p: Posting)
    requires j < |tokens|
    ensures Hits(tokens[..j + 1], word, p) == Hits(tokens[..j], word, p) + if tokens[j] == word then [p] else []
    ensures Postings(text[tokens[j] := Postings(text, tokens[j]) + [p]], word) ==
            Postings(text, word) + if tokens[j] == word then [p] else []
  {
    assert tokens[..j + 1][..j] == tokens[..j];
  }

  lemma EntryIsDone(start: TextIndex, before: TextIndex, after: TextIndex, entries: seq<TextEntry>, i: nat,
      tokenize: Tokenizer)
    requires i < |entries| && TextGrew(start, before, entries[..i], tokenize)
    requires EntryGrew(before, after, tokenize(entries[i].text), entries[i])
    ensures TextGrew(start, after, entries[..i + 1], tokenize)
  {
    hide Postings, Hits;
    var e := entries[i];
    assert entries[..i + 1][..i] == entries[..i];
    forall word: string
      ensures Postings(after, word) == Postings(start, word) + PostingsFor(entries[..i + 1], tokenize, word)
    {
      assert Postings(before, word) == Postings(start, word) + PostingsFor(entries[..i], tokenize, word);
    }
  }

  /** A re-ingestion without embeddings loses the document; no ingestion touches another one. */
  lemma FailedEmbeddingLosesTheDocument(config: Config, latest: Memory, doc: Document, mode: Mode,
      embedded: Option<seq<Vector>>)
    ensures doc.id !in Next(config, latest, doc, mode, embedded) <==>
            Embeds(config, doc, mode) && embedded.None?
    ensures forall other | other != doc.id ::
              && (other in Next(config, latest, doc, mode, embedded) <==> other in latest)
              && (other in latest ==> Next(config, latest, doc, mode, embedded)[other] == latest[other])
  {
    hide CutChunks;
  }
}
