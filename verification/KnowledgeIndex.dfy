/**
 What the in-memory document store, vector index and full-text index hold between two operations.

 A document is remembered with the chunks, and the choice of indexes, of its last ingestion.  A state is
 canonical for a set of remembered documents when every map holds exactly what these documents put there.
 */
module KnowledgeIndex {
  import opened ChunkIds

  type DocId = string
  type Vector = seq<real>
  type Posting = (string, DocId)
  type TextIndex = map<string, seq<Posting>>
  type Tokenizer = string -> seq<string>

  datatype Document = Document(id: DocId, title: string, content: string)

  datatype Chunk = Chunk(id: string, documentId: DocId, text: string, sequence: nat, embedding: Vector)

  datatype TextEntry = TextEntry(id: string, documentId: DocId, text: string)

  datatype Stored = Stored(doc: Document, chunks: seq<Chunk>, inVectors: bool, inText: bool)

  datatype State = State(
    docs: map<DocId, Document>,
    chunks: map<string, Chunk>,
    vectors: map<string, (DocId, Vector)>,
    text: TextIndex)

  const EMPTY := State(map[], map[], map[], map[])

  // ---------------------------------------------------------------------------------------------
  // Filters
  // ---------------------------------------------------------------------------------------------

  function Filter<T>(s: seq<T>, keep: T -> bool): seq<T> {
    if s == [] then [] else Filter(s[..|s| - 1], keep) + if keep(s[|s| - 1]) then [s[|s| - 1]] else []
  }

  lemma {:induction false} FilterHas<T>(s: seq<T>, keep: T -> bool, x: T)
    ensures x in Filter(s, keep) <==> x in s && keep(x)
  {
    if s != [] {
      var front, last := s[..|s| - 1], s[|s| - 1];
      FilterHas(front, keep, x);
      assert s == front + [last];
    }
  }

  lemma {:induction false} FilterConcat<T>(a: seq<T>, b: seq<T>, keep: T -> bool)
    ensures Filter(a + b, keep) == Filter(a, keep) + Filter(b, keep)
  {
    if b == [] {
      assert a + b == a;
    } else {
      FilterConcat(a, b[..|b| - 1], keep);
      assert (a + b)[..|a + b| - 1] == a + b[..|b| - 1];
    }
  }

  /** A filter that only drops what the next one drops anyway changes nothing. */
  lemma {:induction false} FilterTwice<T>(s: seq<T>, first: T -> bool, next: T -> bool)
    requires forall x | x in s :: next(x) ==> first(x)
    ensures Filter(Filter(s, first), next) == Filter(s, next)
  {
    if s != [] {
      var front, last := s[..|s| - 1], s[|s| - 1];
      FilterTwice(front, first, next);
      FilterConcat(Filter(front, first), if first(last) then [last] else [], next);
      FilterOne(last, next);
    }
  }

  lemma FilterOne<T>(x: T, keep: T -> bool)
    ensures Filter([x], keep) == if keep(x) then [x] else []
    ensures Filter([], keep) == []
  {
    assert [x][..0] == [];
  }

  lemma {:induction false} FilterNone<T>(s: seq<T>, keep: T -> bool)
    requires forall x | x in s :: !keep(x)
    ensures Filter(s, keep) == []
  {
    if s != [] {
      assert s[|s| - 1] in s;
      FilterNone(s[..|s| - 1], keep);
    }
  }

  lemma {:induction false} FilterAll<T>(s: seq<T>, keep: T -> bool)
    requires forall x | x in s :: keep(x)
    ensures Filter(s, keep) == s
  {
    if s != [] {
      assert s[|s| - 1] in s && s == s[..|s| - 1] + [s[|s| - 1]];
      FilterAll(s[..|s| - 1], keep);
    }
  }

  // ---------------------------------------------------------------------------------------------
  // The text index
  // ---------------------------------------------------------------------------------------------

  function Postings(index: TextIndex, word: string): seq<Posting> {
    if word in index then index[word] else []
  }

  function OfDoc(id: DocId): Posting -> bool {
    (p: Posting) => p.1 == id
  }

  function NotOfDoc(id: DocId): Posting -> bool {
    (p: Posting) => p.1 != id
  }

  function NotIn(ids: set<string>): Posting -> bool {
    (p: Posting) => p.0 !in ids
  }

  /** Keep some postings, and no word without postings. */
  function Retain(index: TextIndex, keep: Posting -> bool): TextIndex {
    map word | word in index && Filter(index[word], keep) != [] :: Filter(index[word], keep)
  }

  lemma RetainFilters(index: TextIndex, keep: Posting -> bool, word: string)
    ensures Postings(Retain(index, keep), word) == Filter(Postings(index, word), keep)
  {
  }

  /** One posting for each occurrence of `word`. */
  function Hits(tokens: seq<string>, word: string, p: Posting): seq<Posting> {
    if tokens == [] then []
    else Hits(tokens[..|tokens| - 1], word, p) + if tokens[|tokens| - 1] == word then [p] else []
  }

  function PostingsFor(entries: seq<TextEntry>, tokenize: Tokenizer, word: string): seq<Posting> {
    if entries == [] then []
    else
      var e := entries[|entries| - 1];
      PostingsFor(entries[..|entries| - 1], tokenize, word) + Hits(tokenize(e.text), word, (e.id, e.documentId))
  }

  function ChunkEntries(chunks: seq<Chunk>): (r: seq<TextEntry>)
    ensures |r| == |chunks|
  {
    seq(|chunks|, i requires 0 <= i < |chunks| => TextEntry(chunks[i].id, chunks[i].documentId, chunks[i].text))
  }

  /** The chunks and, under an id of its own, the title. */
  function EntriesOf(doc: Document, chunks: seq<Chunk>): seq<TextEntry> {
    ChunkEntries(chunks) + [TextEntry(TitleId(doc.id), doc.id, doc.title)]
  }

  function PostingsOf(stored: Stored, tokenize: Tokenizer, word: string): seq<Posting> {
    if stored.inText then PostingsFor(EntriesOf(stored.doc, stored.chunks), tokenize, word) else []
  }

  lemma {:induction false} HitsAre(tokens: seq<string>, word: string, p: Posting)
    ensures forall q | q in Hits(tokens, word, p) :: q == p
  {
    if tokens != [] {
      HitsAre(tokens[..|tokens| - 1], word, p);
    }
  }

  lemma {:induction false} PostingsComeFrom(entries: seq<TextEntry>, tokenize: Tokenizer, word: string, p: Posting)
    requires p in PostingsFor(entries, tokenize, word)
    ensures exists k :: 0 <= k < |entries| && p == (entries[k].id, entries[k].documentId)
  {
    var n := |entries| - 1;
    var e := entries[n];
    if p in Hits(tokenize(e.text), word, (e.id, e.documentId)) {
      HitsAre(tokenize(e.text), word, (e.id, e.documentId));
    } else {
      PostingsComeFrom(entries[..n], tokenize, word, p);
      var k :| 0 <= k < n && p == (entries[..n][k].id, entries[..n][k].documentId);
      assert entries[..n][k] == entries[k];
    }
  }

  // ---------------------------------------------------------------------------------------------
  // Canonical states
  // ---------------------------------------------------------------------------------------------

  /** An id that only chunks of document `id` can have. */
  ghost predicate OwnId(cid: string, id: DocId) {
    cid == FullId(id) || exists n: nat, hash: string :: cid == MakeChunkId(id, n, hash) && IsHash(hash)
  }

  lemma OwnIdsDiffer(cid: string, id: DocId, id': DocId)
    requires OwnId(cid, id)
    ensures OwnId(cid, id') ==> id == id'
    ensures cid != TitleId(id')
  {
    hide MakeChunkId, IsHash, FullId, TitleId;
    var someHash := "00000000";
    assert IsHash(someHash) by { ZeroHash(); }
    IdKindsAreDisjoint(id, 0, someHash, id', id);
    if cid != FullId(id) {
      var n: nat, hash: string :| cid == MakeChunkId(id, n, hash) && IsHash(hash);
      IdKindsAreDisjoint(id, n, hash, id', id);
      if OwnId(cid, id') {
        var n': nat, hash': string :| cid == MakeChunkId(id', n', hash') && IsHash(hash');
        ChunkIdIsInjective(id, n, hash, id', n', hash');
      }
    } else if OwnId(cid, id') && cid != FullId(id') {
      var n': nat, hash': string :| cid == MakeChunkId(id', n', hash') && IsHash(hash');
      IdKindsAreDisjoint(id', n', hash', id, id);
    }
  }

  lemma ZeroHash()
    ensures IsHash("00000000")
  {
  }

  ghost predicate DistinctIds(chunks: seq<Chunk>) {
    forall i, j | 0 <= i < j < |chunks| :: chunks[i].id != chunks[j].id
  }

  ghost predicate OwnedBy(c: Chunk, id: DocId) {
    c.documentId == id && OwnId(c.id, id)
  }

  ghost predicate WellStored(id: DocId, stored: Stored) {
    && stored.doc.id == id
    && (forall k | 0 <= k < |stored.chunks| :: OwnedBy(stored.chunks[k], id))
    && DistinctIds(stored.chunks)
  }

  type Memory = map<DocId, Stored>

  ghost predicate AllWellStored(latest: Memory) {
    forall id | id in latest :: WellStored(id, latest[id])
  }

  ghost predicate DocsOk(docs: map<DocId, Document>, latest: Memory) {
    docs.Keys == latest.Keys && forall id | id in docs :: docs[id] == latest[id].doc
  }

  predicate HasChunk(chunks: map<string, Chunk>, c: Chunk) {
    c.id in chunks && chunks[c.id] == c
  }

  ghost predicate HasAll(chunks: map<string, Chunk>, s: seq<Chunk>) {
    forall k | 0 <= k < |s| :: HasChunk(chunks, s[k])
  }

  predicate Remembered(latest: Memory, cid: string, c: Chunk) {
    c.id == cid && c.documentId in latest && c in latest[c.documentId].chunks
  }

  ghost predicate ChunksOk(chunks: map<string, Chunk>, latest: Memory) {
    && (forall id | id in latest :: HasAll(chunks, latest[id].chunks))
    && (forall cid | cid in chunks :: Remembered(latest, cid, chunks[cid]))
  }

  predicate Searchable(latest: Memory, c: Chunk) {
    c.documentId in latest && latest[c.documentId].inVectors
  }

  ghost predicate VectorsOk(vectors: map<string, (DocId, Vector)>, chunks: map<string, Chunk>, latest: Memory) {
    && (forall cid | cid in vectors :: cid in chunks && vectors[cid] == (chunks[cid].documentId, chunks[cid].embedding))
    && (forall cid | cid in chunks :: cid in vectors <==> Searchable(latest, chunks[cid]))
  }

  ghost predicate WordOk(postings: seq<Posting>, latest: Memory, tokenize: Tokenizer, word: string) {
    forall id: DocId ::
      Filter(postings, OfDoc(id)) == if id in latest then PostingsOf(latest[id], tokenize, word) else []
  }

  ghost predicate TextOk(text: TextIndex, latest: Memory, tokenize: Tokenizer) {
    && (forall word: string :: WordOk(Postings(text, word), latest, tokenize, word))
    && (forall word | word in text :: text[word] != [])
  }

  /** Every map holds what the remembered documents put there and nothing else. */
  ghost predicate Canonical(st: State, latest: Memory, tokenize: Tokenizer) {
    && AllWellStored(latest)
    && DocsOk(st.docs, latest)
    && ChunksOk(st.chunks, latest)
    && VectorsOk(st.vectors, st.chunks, latest)
    && TextOk(st.text, latest, tokenize)
  }

  // ---------------------------------------------------------------------------------------------
  // What can be searched, told from the words
  // ---------------------------------------------------------------------------------------------

  /** How often the index lists the posting under the word. */
  ghost function HowOften(text: TextIndex, word: string, p: Posting): nat {
    if word in text then multiset(text[word])[p] else 0
  }

  /** A document in the text index is found by the words of its chunks and of its title, once for each time a word
      occurs there; a document that is not is found by no word. */
  ghost predicate IsIndexed(text: TextIndex, stored: Stored, tokenize: Tokenizer) {
    var id := stored.doc.id;
    && (stored.inText ==> forall word: string, c | c in stored.chunks ::
          HowOften(text, word, (c.id, c.documentId)) == multiset(tokenize(c.text))[word])
    && (stored.inText ==> forall word: string ::
          HowOften(text, word, (id + "__title", id)) == multiset(tokenize(stored.doc.title))[word])
    && (!stored.inText ==> forall word: string, cid: string :: HowOften(text, word, (cid, id)) == 0)
  }

  lemma SumOfCounts(a: seq<Posting>, b: seq<Posting>, p: Posting)
    ensures multiset(a + b)[p] == multiset(a)[p] + multiset(b)[p]
  {
  }

  lemma {:induction false} HitsCount(tokens: seq<string>, word: string, p: Posting, q: Posting)
    ensures multiset(Hits(tokens, word, p))[q] == if q == p then multiset(tokens)[word] else 0
  {
    if tokens != [] {
      var front, last := tokens[..|tokens| - 1], tokens[|tokens| - 1];
      HitsCount(front, word, p, q);
      assert tokens == front + [last];
      SumOfCounts(Hits(front, word, p), if last == word then [p] else [], q);
    }
  }

  ghost predicate HasPosting(e: TextEntry, p: Posting) {
    e.id == p.0 && e.documentId == p.1
  }

  lemma OneEntryCount(e: TextEntry, tokenize: Tokenizer, word: string, p: Posting)
    ensures multiset(Hits(tokenize(e.text), word, (e.id, e.documentId)))[p] ==
            if HasPosting(e, p) then multiset(tokenize(e.text))[word] else 0
  {
    HitsCount(tokenize(e.text), word, (e.id, e.documentId), p);
  }

  /** A posting that one entry alone writes is written as often as the word occurs in that entry. */
  lemma {:induction false} EntryCount(entries: seq<TextEntry>, tokenize: Tokenizer, word: string, p: Posting, k: nat)
    requires k < |entries| ==> HasPosting(entries[k], p)
    requires forall j | 0 <= j < |entries| && j != k :: !HasPosting(entries[j], p)
    ensures multiset(PostingsFor(entries, tokenize, word))[p] ==
            if k < |entries| then multiset(tokenize(entries[k].text))[word] else 0
  {
    hide HasPosting, Hits;
    if entries != [] {
      var n := |entries| - 1;
      var front, e := entries[..n], entries[n];
      OneEntryCount(e, tokenize, word, p);
      EntryCount(front, tokenize, word, p, if k < n then k else n);
      SumOfCounts(PostingsFor(front, tokenize, word), Hits(tokenize(e.text), word, (e.id, e.documentId)), p);
    }
  }

  lemma {:induction false} CountInFilter(s: seq<Posting>, p: Posting)
    ensures multiset(s)[p] == multiset(Filter(s, OfDoc(p.1)))[p]
  {
    if s != [] {
      var front, last := s[..|s| - 1], s[|s| - 1];
      assert s == front + [last];
      CountInFilter(front, p);
    }
  }

  /** What the index lists for a posting is what its document wrote. */
  lemma CountOfDoc(text: TextIndex, latest: Memory, tokenize: Tokenizer, word: string, p: Posting)
    requires TextOk(text, latest, tokenize) && p.1 in latest
    ensures HowOften(text, word, p) == multiset(PostingsOf(latest[p.1], tokenize, word))[p]
  {
    hide PostingsOf, Filter;
    assert WordOk(Postings(text, word), latest, tokenize, word);
    CountInFilter(Postings(text, word), p);
  }

  /** The entries of a document have ids of their own. */
  lemma EntriesDiffer(id: DocId, stored: Stored, k: nat, p: Posting)
    requires WellStored(id, stored) && k <= |stored.chunks|
    requires p == if k < |stored.chunks| then (stored.chunks[k].id, id) else (TitleId(id), id)
    ensures var entries := EntriesOf(stored.doc, stored.chunks);
            && |entries| == |stored.chunks| + 1 && HasPosting(entries[k], p)
            && entries[k].text == (if k < |stored.chunks| then stored.chunks[k].text else stored.doc.title)
            && forall j | 0 <= j < |entries| && j != k :: !HasPosting(entries[j], p)
  {
    hide TitleId, OwnId;
    var entries := EntriesOf(stored.doc, stored.chunks);
    assert forall j | 0 <= j < |stored.chunks| :: OwnedBy(stored.chunks[j], id);
    forall j | 0 <= j < |stored.chunks| ensures stored.chunks[j].id != TitleId(id) {
      OwnIdsDiffer(stored.chunks[j].id, id, id);
    }
  }

  /** In a canonical state every remembered document is found by its words, and by nothing else. */
  lemma DocumentsAreIndexed(st: State, latest: Memory, tokenize: Tokenizer, id: DocId)
    requires Canonical(st, latest, tokenize) && id in latest
    ensures IsIndexed(st.text, latest[id], tokenize)
  {
    hide ChunksOk, VectorsOk, DocsOk, TextOk, DistinctIds, OwnId, EntriesOf, HowOften, PostingsFor;
    var stored := latest[id];
    assert WellStored(id, stored);
    forall word: string, c | c in stored.chunks && stored.inText
      ensures HowOften(st.text, word, (c.id, c.documentId)) == multiset(tokenize(c.text))[word]
    {
      var k :| 0 <= k < |stored.chunks| && stored.chunks[k] == c;
      assert OwnedBy(c, id);
      EntryIsIndexed(st.text, latest, tokenize, id, k, word);
    }
    forall word: string | stored.inText
      ensures HowOften(st.text, word, (id + "__title", id)) == multiset(tokenize(stored.doc.title))[word]
    {
      EntryIsIndexed(st.text, latest, tokenize, id, |stored.chunks|, word);
    }
    forall word: string, cid: string | !stored.inText ensures HowOften(st.text, word, (cid, id)) == 0 {
      CountOfDoc(st.text, latest, tokenize, word, (cid, id));
    }
  }

  lemma EntryIsIndexed(text: TextIndex, latest: Memory, tokenize: Tokenizer, id: DocId, k: nat, word: string)
    requires TextOk(text, latest, tokenize) && id in latest && WellStored(id, latest[id]) && latest[id].inText
    requires k <= |latest[id].chunks|
    ensures k < |latest[id].chunks| ==>
              HowOften(text, word, (latest[id].chunks[k].id, id)) == multiset(tokenize(latest[id].chunks[k].text))[word]
    ensures k == |latest[id].chunks| ==>
              HowOften(text, word, (TitleId(id), id)) == multiset(tokenize(latest[id].doc.title))[word]
  {
    hide TextOk, WellStored, EntriesOf, HowOften, PostingsFor, TitleId, HasPosting;
    var stored := latest[id];
    var p := if k < |stored.chunks| then (stored.chunks[k].id, id) else (TitleId(id), id);
    CountOfDoc(text, latest, tokenize, word, p);
    EntriesDiffer(id, stored, k, p);
    EntryCount(EntriesOf(stored.doc, stored.chunks), tokenize, word, p, k);
  }

  lemma EmptyIsCanonical(tokenize: Tokenizer)
    ensures Canonical(EMPTY, map[], tokenize)
  {
  }

  /** Every posting belongs to a remembered document, and is for one of its chunks or for its title. */
  lemma PostingIsOwned(text: TextIndex, latest: Memory, tokenize: Tokenizer, word: string, p: Posting)
    requires TextOk(text, latest, tokenize) && AllWellStored(latest) && p in Postings(text, word)
    ensures p.1 in latest && latest[p.1].inText
    ensures p.0 == TitleId(p.1) || exists k :: 0 <= k < |latest[p.1].chunks| && p.0 == latest[p.1].chunks[k].id
  {
    hide PostingsFor, TitleId, OwnId;
    assert WordOk(Postings(text, word), latest, tokenize, word);
    FilterHas(Postings(text, word), OfDoc(p.1), p);
    var stored := latest[p.1];
    assert WellStored(p.1, stored);
    PostingsComeFrom(EntriesOf(stored.doc, stored.chunks), tokenize, word, p);
  }
}
