/** The overlapping-window chunker: windows of about `size` characters, ends moved to sentence ends. */
module WindowChunker {
  import opened Common
  import ChunkIds

  const MAX_LOOKAHEAD: nat := 100

  predicate SentenceEnd(c: char) {
    c == '.' || c == '!' || c == '?' || c == '\n' || c == '\U{3002}' || c == '\U{FF01}' || c == '\U{FF1F}'
  }

  function Min(a: nat, b: nat): nat {
    if a < b then a else b
  }

  // ---------------------------------------------------------------------------------------------
  // Where windows end, told from the characters
  // ---------------------------------------------------------------------------------------------

  /** One of the seven characters that end a sentence stands at `i`. */
  ghost predicate StopAt(chars: string, i: int) {
    0 <= i < |chars| && chars[i] in {'.', '!', '?', '\n', '\U{3002}', '\U{FF01}', '\U{FF1F}'}
  }

  ghost predicate NoStop(chars: string, lo: int, hi: int) {
    forall i | lo <= i < hi :: !StopAt(chars, i)
  }

  /** `r` is just behind the first sentence end among the 100 characters from `end` on; if there is none, just
      behind the last one of the window; if there is none either, `end`. */
  ghost predicate IsAligned(chars: string, start: nat, end: nat, r: nat) {
    || (end < r <= end + 100 && StopAt(chars, r - 1) && NoStop(chars, end, r - 1))
    || (NoStop(chars, end, end + 100) && start < r <= end && StopAt(chars, r - 1) && NoStop(chars, r, end))
    || (NoStop(chars, end, end + 100) && NoStop(chars, start, end) && r == end)
  }

  /** The window from `start` ends at `r`: where `start + size`, or the end of the text, is aligned to, unless the
      text goes on there and the next window, `overlap` characters back, would not begin behind `start`. */
  ghost predicate EndsAt(chars: string, size: nat, overlap: nat, start: nat, r: nat) {
    var end := if start + size < |chars| then start + size else |chars|;
    exists aligned: nat :: IsAligned(chars, start, end, aligned) &&
      r == if aligned < |chars| && aligned <= start + overlap then end else aligned
  }

  /** The three cases exclude each other, and each names one place. */
  lemma AlignedIsUnique(chars: string, start: nat, end: nat, r: nat, r': nat)
    requires IsAligned(chars, start, end, r) && IsAligned(chars, start, end, r')
    ensures r == r'
  {
  }

  lemma EndIsUnique(chars: string, size: nat, overlap: nat, start: nat, r: nat, r': nat)
    requires EndsAt(chars, size, overlap, start, r) && EndsAt(chars, size, overlap, start, r')
    ensures r == r'
  {
    var end := if start + size < |chars| then start + size else |chars|;
    forall a: nat, b: nat | IsAligned(chars, start, end, a) && IsAligned(chars, start, end, b) ensures a == b {
      AlignedIsUnique(chars, start, end, a, b);
    }
  }

  /** The first sentence end in `[lo, hi)`. */
  function FirstEnd(chars: string, lo: nat, hi: nat): (r: Option<nat>)
    requires hi <= |chars|
    ensures r.Some? ==> lo <= r.value < hi && SentenceEnd(chars[r.value])
    ensures r.Some? ==> forall i | lo <= i < r.value :: !SentenceEnd(chars[i])
    ensures r.None? ==> forall i | lo <= i < hi :: !SentenceEnd(chars[i])
    decreases hi - lo
  {
    if lo >= hi then None else if SentenceEnd(chars[lo]) then Some(lo) else FirstEnd(chars, lo + 1, hi)
  }

  /** The last sentence end in `[lo, hi)`. */
  function LastEnd(chars: string, lo: nat, hi: nat): (r: Option<nat>)
    requires hi <= |chars|
    ensures r.Some? ==> lo <= r.value < hi && SentenceEnd(chars[r.value])
    ensures r.Some? ==> forall i | r.value < i < hi :: !SentenceEnd(chars[i])
    ensures r.None? ==> forall i | lo <= i < hi :: !SentenceEnd(chars[i])
    decreases hi
  {
    if lo >= hi then None else if SentenceEnd(chars[hi - 1]) then Some(hi - 1) else LastEnd(chars, lo, hi - 1)
  }

  /** Extend the end to just after the next sentence end nearby, else retreat to the previous one. */
  function AlignEndToSentence(chars: string, start: nat, end: nat): (r: nat)
    requires start < end <= |chars|
    ensures start < r <= |chars| && r <= end + 100
    ensures IsAligned(chars, start, end, r)
  {
    var forward := FirstEnd(chars, end, Min(end + MAX_LOOKAHEAD, |chars|));
    if forward.Some? then Min(forward.value + 1, |chars|)
    else
      var backward := LastEnd(chars, start, end);
      if backward.Some? then Min(backward.value + 1, |chars|) else end
  }

  /** Where the window from `start` ends: aligned, unless the overlap would then bring it back. */
  function WindowEnd(chars: string, size: nat, overlap: nat, start: nat): (r: nat)
    requires size > overlap && start < |chars|
    ensures start < r <= |chars| && r <= start + size + 100
    ensures r < |chars| ==> r > start + overlap
    ensures EndsAt(chars, size, overlap, start, r)
  {
    var end := Min(start + size, |chars|);
    var aligned := AlignEndToSentence(chars, start, end);
    if aligned < |chars| && (if aligned < overlap then 0 else aligned - overlap) <= start then end else aligned
  }

  datatype Window = Window(start: nat, end: nat)

  /** The windows from `start` on; a tail shorter than a quarter window is not produced if anything
      came before it. */
  function Windows(chars: string, size: nat, overlap: nat, start: nat, first: bool): seq<Window>
    requires size > overlap
    decreases |chars| - start
  {
    if start >= |chars| then []
    else
      var end := WindowEnd(chars, size, overlap, start);
      if end >= |chars| && end - start < size / 4 && !first then []
      else [Window(start, end)] + if end >= |chars| then [] else Windows(chars, size, overlap, end - overlap, false)
  }

  datatype Chunk = Chunk(id: string, documentId: string, text: string, sequenceIndex: nat, start: nat, end: nat)

  function ChunkOf(docId: string, chars: string, digest: string -> string, w: Window, sequence: nat): Chunk
    requires w.start <= w.end <= |chars|
  {
    var text := chars[w.start..w.end];
    Chunk(ChunkIds.MakeChunkId(docId, sequence, digest(text)), docId, text, sequence, w.start, w.end)
  }

  // ---------------------------------------------------------------------------------------------
  // What the windows are like
  // ---------------------------------------------------------------------------------------------

  /** Non-empty, not too long, inside the text, and ending where a window from its start has to. */
  ghost predicate WindowOk(chars: string, size: nat, overlap: nat, w: Window) {
    w.start < w.end <= |chars| && w.end - w.start <= size + 100 && EndsAt(chars, size, overlap, w.start, w.end)
  }

  /** `next` starts `overlap` before `w` ends, and ends later. */
  ghost predicate Overlaps(overlap: nat, w: Window, next: Window) {
    overlap <= w.end && next.start == w.end - overlap && w.end < next.end
  }

  /** Each window as it should be, overlapping the previous one by exactly `overlap`. */
  ghost predicate WindowsOk(chars: string, size: nat, overlap: nat, windows: seq<Window>) {
    && (forall i | 0 <= i < |windows| :: WindowOk(chars, size, overlap, windows[i]))
    && (forall i, j | 0 <= i < |windows| && j == i + 1 && j < |windows| :: Overlaps(overlap, windows[i], windows[j]))
  }

  /** What is left from `start` on is one window shorter than a quarter window. */
  ghost predicate ShortTail(chars: string, size: nat, overlap: nat, start: nat) {
    start < |chars| && |chars| - start < size / 4 && EndsAt(chars, size, overlap, start, |chars|)
  }

  /** Where the windows begin and end; only a short tail stays uncovered. */
  ghost predicate SpanOk(chars: string, size: nat, overlap: nat, start: nat, first: bool, windows: seq<Window>) {
    if windows == [] then start >= |chars| || (!first && ShortTail(chars, size, overlap, start))
    else
      && windows[0].start == start
      && var last := windows[|windows| - 1].end;
         last == |chars| || (overlap <= last && ShortTail(chars, size, overlap, last - overlap))
  }

  /** No window but the very first is a short tail. */
  ghost predicate TailOk(chars: string, size: nat, first: bool, windows: seq<Window>) {
    forall i | 0 <= i < |windows| && (i > 0 || !first) ::
      windows[i].end == |chars| ==> |chars| - windows[i].start >= size / 4
  }

  /** The windows of the text from `start` on, told without the algorithm. */
  ghost predicate IsWindowing(chars: string, size: nat, overlap: nat, start: nat, first: bool, windows: seq<Window>) {
    && WindowsOk(chars, size, overlap, windows)
    && SpanOk(chars, size, overlap, start, first, windows)
    && TailOk(chars, size, first, windows)
  }

  lemma {:induction false} WindowsAreOk(chars: string, size: nat, overlap: nat, start: nat, first: bool)
    requires size > overlap
    ensures var windows := Windows(chars, size, overlap, start, first);
            IsWindowing(chars, size, overlap, start, first, windows)
    decreases |chars| - start
  {
    hide Windows, IsWindowing;
    if start < |chars| {
      var end := WindowEnd(chars, size, overlap, start);
      var next := if end >= |chars| then |chars| else end - overlap;
      WindowsAreOk(chars, size, overlap, next, false);
      WindowFitsRest(chars, size, overlap, start);
      AddWindow(chars, size, overlap, start, first, next);
    } else {
      NoWindows(chars, size, overlap, start, first);
    }
  }

  lemma NoWindows(chars: string, size: nat, overlap: nat, start: nat, first: bool)
    requires size > overlap && start >= |chars|
    ensures var windows := Windows(chars, size, overlap, start, first);
            windows == [] && IsWindowing(chars, size, overlap, start, first, windows)
  {
  }

  /** The windows after this one, if any, begin `overlap` before its end and end later. */
  lemma WindowFitsRest(chars: string, size: nat, overlap: nat, start: nat)
    requires size > overlap && start < |chars|
    ensures var end := WindowEnd(chars, size, overlap, start);
            var rest := Windows(chars, size, overlap, if end >= |chars| then |chars| else end - overlap, false);
            && WindowOk(chars, size, overlap, Window(start, end))
            && (rest != [] ==> end < |chars| && Overlaps(overlap, Window(start, end), rest[0]))
  {
    var end := WindowEnd(chars, size, overlap, start);
    if end < |chars| {
      FirstWindowGoesOn(chars, size, overlap, end);
    }
  }

  lemma AddWindow(chars: string, size: nat, overlap: nat, start: nat, first: bool, next: nat)
    requires size > overlap && start < |chars|
    requires var end := WindowEnd(chars, size, overlap, start);
             next == if end >= |chars| then |chars| else end - overlap
    requires var end, rest := WindowEnd(chars, size, overlap, start), Windows(chars, size, overlap, next, false);
             && IsWindowing(chars, size, overlap, next, false, rest)
             && WindowOk(chars, size, overlap, Window(start, end))
             && (rest != [] ==> end < |chars| && Overlaps(overlap, Window(start, end), rest[0]))
    ensures IsWindowing(chars, size, overlap, start, first, Windows(chars, size, overlap, start, first))
  {
    var end, rest := WindowEnd(chars, size, overlap, start), Windows(chars, size, overlap, next, false);
    WindowsUnfold(chars, size, overlap, start, first);
    hide WindowEnd, Windows, WindowsOk, SpanOk, TailOk, EndsAt, Overlaps;
    if end >= |chars| && end - start < size / 4 && !first {
      SkipTail(chars, size, overlap, start);
    } else {
      TakeFirst(chars, size, overlap, Window(start, end), first, next, rest);
    }
  }

  lemma SkipTail(chars: string, size: nat, overlap: nat, start: nat)
    requires ShortTail(chars, size, overlap, start)
    ensures IsWindowing(chars, size, overlap, start, false, [])
  {
  }

  lemma TakeFirst(chars: string, size: nat, overlap: nat, w: Window, first: bool, next: nat, rest: seq<Window>)
    requires IsWindowing(chars, size, overlap, next, false, rest) && WindowOk(chars, size, overlap, w)
    requires overlap < w.end || w.end == |chars|
    requires next == if w.end == |chars| then |chars| else w.end - overlap
    requires rest != [] ==> w.end < |chars| && Overlaps(overlap, w, rest[0])
    requires w.end == |chars| && !first ==> |chars| - w.start >= size / 4
    ensures IsWindowing(chars, size, overlap, w.start, first, [w] + rest)
  {
    hide EndsAt;
    PrependWindow(chars, size, overlap, w, rest);
    var windows := [w] + rest;
    assert forall i | 0 < i < |windows| :: windows[i] == rest[i - 1];
    assert windows[|windows| - 1] == if rest == [] then w else rest[|rest| - 1];
  }

  lemma PrependWindow(chars: string, size: nat, overlap: nat, w: Window, rest: seq<Window>)
    requires WindowsOk(chars, size, overlap, rest) && WindowOk(chars, size, overlap, w)
    requires rest != [] ==> Overlaps(overlap, w, rest[0])
    ensures WindowsOk(chars, size, overlap, [w] + rest)
    ensures ([w] + rest)[0] == w
    ensures ([w] + rest)[|rest|] == if rest == [] then w else rest[|rest| - 1]
  {
    var windows := [w] + rest;
    forall i, j | 0 <= i < |windows| && j == i + 1 && j < |windows| ensures Overlaps(overlap, windows[i], windows[j]) {
      if i > 0 {
        assert windows[i] == rest[i - 1] && windows[j] == rest[i];
      }
    }
  }

  /** Nothing else is a windowing of the text: start, ends, overlaps and tail leave no choice. */
  lemma {:induction false} WindowsAreUnique(chars: string, size: nat, overlap: nat, start: nat, first: bool,
      windows: seq<Window>)
    requires size > overlap && IsWindowing(chars, size, overlap, start, first, windows)
    ensures windows == Windows(chars, size, overlap, start, first)
    decreases |chars| - start
  {
    hide EndsAt, WindowEnd;
    WindowsUnfold(chars, size, overlap, start, first);
    hide Windows;
    if windows != [] {
      assert WindowOk(chars, size, overlap, windows[0]);
    }
    if start < |chars| {
      var end := WindowEnd(chars, size, overlap, start);
      if windows == [] {
        EndIsUnique(chars, size, overlap, start, end, |chars|);
      } else {
        EndIsUnique(chars, size, overlap, start, end, windows[0].end);
        var next := if end >= |chars| then |chars| else end - overlap;
        RestIsWindowing(chars, size, overlap, start, first, next, windows);
        WindowsAreUnique(chars, size, overlap, next, false, windows[1..]);
        assert windows == [windows[0]] + windows[1..];
      }
    }
  }

  lemma RestIsWindowing(chars: string, size: nat, overlap: nat, start: nat, first: bool, next: nat,
      windows: seq<Window>)
    requires size > overlap && IsWindowing(chars, size, overlap, start, first, windows) && windows != []
    requires overlap <= windows[0].end || windows[0].end == |chars|
    requires next == if windows[0].end == |chars| then |chars| else windows[0].end - overlap
    ensures IsWindowing(chars, size, overlap, next, false, windows[1..])
  {
    hide EndsAt;
    var rest := windows[1..];
    assert forall i | 0 <= i < |rest| :: rest[i] == windows[i + 1];
    if rest != [] {
      assert Overlaps(overlap, windows[0], windows[1]) && WindowOk(chars, size, overlap, windows[1]);
    }
    forall i, j | 0 <= i < |rest| && j == i + 1 && j < |rest| ensures Overlaps(overlap, rest[i], rest[j]) {
      assert Overlaps(overlap, windows[i + 1], windows[j + 1]);
    }
  }

  /** The next window ends after this one. */
  lemma FirstWindowGoesOn(chars: string, size: nat, overlap: nat, end: nat)
    requires size > overlap && overlap < end < |chars|
    ensures WindowEnd(chars, size, overlap, end - overlap) > end
  {
  }

  /** The text put together again from overlapping pieces. */
  function Glue(pieces: seq<string>, overlap: nat): string
    requires forall i | 0 < i < |pieces| :: overlap <= |pieces[i]|
  {
    if pieces == [] then []
    else if |pieces| == 1 then pieces[0]
    else Glue(pieces[..|pieces| - 1], overlap) + pieces[|pieces| - 1][overlap..]
  }

  function Pieces(chars: string, windows: seq<Window>): seq<string>
    requires forall i | 0 <= i < |windows| :: windows[i].start <= windows[i].end <= |chars|
  {
    seq(|windows|, i requires 0 <= i < |windows| => chars[windows[i].start..windows[i].end])
  }

  lemma PiecesCoverOverlap(chars: string, size: nat, overlap: nat, windows: seq<Window>)
    requires WindowsOk(chars, size, overlap, windows)
    ensures forall i | 0 <= i < |windows| :: windows[i].start <= windows[i].end <= |chars|
    ensures forall i | 0 < i < |windows| :: overlap <= |Pieces(chars, windows)[i]|
  {
    forall i | 0 <= i < |windows| ensures windows[i].start <= windows[i].end <= |chars| {
      assert WindowOk(chars, size, overlap, windows[i]);
    }
    forall i | 0 < i < |windows| ensures overlap <= |Pieces(chars, windows)[i]| {
      assert Overlaps(overlap, windows[i - 1], windows[i]);
    }
  }

  /** Dropping the overlaps and joining gives back the text up to the last window's end. */
  lemma {:induction false} PiecesGlueBack(chars: string, size: nat, overlap: nat, windows: seq<Window>)
    requires WindowsOk(chars, size, overlap, windows) && windows != [] && windows[0].start == 0
    requires forall i | 0 <= i < |windows| :: windows[i].start <= windows[i].end <= |chars|
    requires forall i | 0 < i < |windows| :: overlap <= |Pieces(chars, windows)[i]|
    ensures Glue(Pieces(chars, windows), overlap) == chars[..windows[|windows| - 1].end]
    decreases |windows|
  {
    hide EndsAt;
    if |windows| > 1 {
      var n := |windows| - 1;
      assert Overlaps(overlap, windows[n - 1], windows[n]);
      var init := windows[..n];
      assert WindowsOk(chars, size, overlap, init);
      assert Pieces(chars, windows)[..n] == Pieces(chars, init);
      PiecesGlueBack(chars, size, overlap, init);
      assert chars[windows[n].start..windows[n].end][overlap..] == chars[init[n - 1].end..windows[n].end];
      assert chars[..init[n - 1].end] + chars[init[n - 1].end..windows[n].end] == chars[..windows[n].end];
    }
  }

  /** Nothing is lost but a short tail: at most `size / 4 - 1 - overlap` characters. */
  lemma TailIsBounded(chars: string, size: nat, overlap: nat)
    requires size > overlap && chars != []
    ensures var windows := Windows(chars, size, overlap, 0, true);
            && windows != []
            && var lost := |chars| - windows[|windows| - 1].end;
               if overlap + 1 >= size / 4 then lost == 0 else lost <= size / 4 - 1 - overlap
  {
    WindowsAreOk(chars, size, overlap, 0, true);
  }

  /** All of the text is in some window. */
  ghost predicate Covers(chars: string, size: nat, overlap: nat)
    requires size > overlap
  {
    var windows := Windows(chars, size, overlap, 0, true);
    chars == [] || (windows != [] && windows[|windows| - 1].end == |chars|)
  }

  /** One character more than fits the first window, and no sentence end anywhere. */
  function Stubborn(size: nat): string {
    seq(size + 1, _ => 'a')
  }

  lemma StubbornLosesTail(size: nat, overlap: nat)
    requires overlap + 1 < size / 4
    ensures !Covers(Stubborn(size), size, overlap)
  {
    var chars := Stubborn(size);
    assert FirstEnd(chars, size, Min(size + MAX_LOOKAHEAD, |chars|)).None?;
    assert LastEnd(chars, 0, size).None?;
    assert WindowEnd(chars, size, overlap, 0) == size;
    var start := size - overlap;
    assert WindowEnd(chars, size, overlap, start) == |chars| by {
      assert FirstEnd(chars, |chars|, Min(|chars| + MAX_LOOKAHEAD, |chars|)).None?;
      assert LastEnd(chars, start, |chars|).None?;
    }
    assert Windows(chars, size, overlap, start, false) == [];
    assert Windows(chars, size, overlap, 0, true) == [Window(0, size)] + [];
  }

  /** A configuration covers every text exactly when its overlap reaches a quarter window: then the
      tail that is dropped is never more than what the previous window already holds. */
  lemma CoversAllTextsIff(size: nat, overlap: nat)
    requires size > overlap
    ensures (forall chars: string :: Covers(chars, size, overlap)) <==> overlap + 1 >= size / 4
  {
    if overlap + 1 >= size / 4 {
      forall chars: string ensures Covers(chars, size, overlap) {
        if chars != [] {
          TailIsBounded(chars, size, overlap);
        }
      }
    } else {
      StubbornLosesTail(size, overlap);
    }
  }

  // ---------------------------------------------------------------------------------------------
  // The algorithm
  // ---------------------------------------------------------------------------------------------

  ghost predicate AreChunksOf(docId: string, chars: string, digest: string -> string, chunks: seq<Chunk>,
      windows: seq<Window>) {
    && |chunks| == |windows|
    && forall i | 0 <= i < |chunks| ::
         windows[i].start <= windows[i].end <= |chars| && IsChunkOf(docId, chars, digest, chunks[i], windows[i], i)
  }

  /** Chunk number `i` holds the text of its window and says whose it is and where it stands. */
  ghost predicate IsChunkOf(docId: string, chars: string, digest: string -> string, chunk: Chunk, w: Window, i: nat)
    requires w.start <= w.end <= |chars|
  {
    && chunk.text == chars[w.start..w.end]
    && chunk.documentId == docId && chunk.sequenceIndex == i
    && chunk.start == w.start && chunk.end == w.end
    && chunk.id == ChunkIds.MakeChunkId(docId, i, digest(chunk.text))
  }

  lemma AppendChunk(docId: string, chars: string, digest: string -> string, chunks: seq<Chunk>, done: seq<Window>,
      w: Window)
    requires AreChunksOf(docId, chars, digest, chunks, done) && w.start <= w.end <= |chars|
    ensures AreChunksOf(docId, chars, digest, chunks + [ChunkOf(docId, chars, digest, w, |chunks|)], done + [w])
  {
  }

  function Texts(chunks: seq<Chunk>): (r: seq<string>)
    ensures |r| == |chunks| && forall i | 0 <= i < |r| :: r[i] == chunks[i].text
  {
    seq(|chunks|, i requires 0 <= i < |chunks| => chunks[i].text)
  }

  /** What the chunks of a text hold: overlaps dropped and joined, all of the text but a tail that is empty or
      shorter than a quarter window less the overlap. */
  lemma ChunksGlueBack(docId: string, chars: string, size: nat, overlap: nat, digest: string -> string,
      chunks: seq<Chunk>)
    requires size > overlap && chars != []
    requires AreChunksOf(docId, chars, digest, chunks, Windows(chars, size, overlap, 0, true))
    ensures chunks != [] && forall i | 0 < i < |chunks| :: overlap <= |Texts(chunks)[i]|
    ensures var glued := Glue(Texts(chunks), overlap);
            && glued <= chars
            && |chars| - |glued| <= if overlap + 1 >= size / 4 then 0 else size / 4 - 1 - overlap
  {
    hide Windows, WindowsOk, ShortTail, TailOk, Glue, WindowEnd, Pieces, EndsAt, IsChunkOf;
    var windows := Windows(chars, size, overlap, 0, true);
    WindowsAreOk(chars, size, overlap, 0, true);
    TailIsBounded(chars, size, overlap);
    PiecesCoverOverlap(chars, size, overlap, windows);
    TextsArePieces(docId, chars, digest, chunks, windows);
    PiecesGlueBack(chars, size, overlap, windows);
  }

  lemma TextsArePieces(docId: string, chars: string, digest: string -> string, chunks: seq<Chunk>, windows: seq<Window>)
    requires AreChunksOf(docId, chars, digest, chunks, windows)
    ensures forall i | 0 <= i < |windows| :: windows[i].start <= windows[i].end <= |chars|
    ensures Texts(chunks) == Pieces(chars, windows)
  {
  }

  /** Where the window from `start` ends: at a sentence, unless that would not get further than the overlap. */
  method AlignedEnd(chars: string, size: nat, overlap: nat, start: nat) returns (alignedEnd: nat)
    requires size > overlap && start < |chars|
    ensures alignedEnd == WindowEnd(chars, size, overlap, start) && EndsAt(chars, size, overlap, start, alignedEnd)
  {
    hide AlignEndToSentence, EndsAt, IsAligned;
    var end := Min(start + size, |chars|);
    var rawAligned := AlignEndToSentence(chars, start, end);
    var retreated := if rawAligned < overlap then 0 else rawAligned - overlap;
    alignedEnd := if rawAligned < |chars| && retreated <= start then end else rawAligned;
  }

  method ChunkText(docId: string, chars: string, size: nat, overlap: nat, digest: string -> string)
    returns (chunks: seq<Chunk>)
    requires size > overlap
    ensures AreChunksOf(docId, chars, digest, chunks, Windows(chars, size, overlap, 0, true))
    ensures IsWindowing(chars, size, overlap, 0, true, Windows(chars, size, overlap, 0, true))
  {
    hide *;
    chunks := [];
    var start, sequence: nat := 0, 0;
    ghost var done: seq<Window> := [];
    NoChunks(docId, chars, digest);
    while start < |chars|
      invariant sequence == |chunks| == |done| && start <= |chars|
      invariant AreChunksOf(docId, chars, digest, chunks, done)
      invariant done + Windows(chars, size, overlap, start, chunks == []) == Windows(chars, size, overlap, 0, true)
      decreases |chars| - start
    {
      TakeWindow(done, chars, size, overlap, start, chunks == []);
      var alignedEnd := AlignedEnd(chars, size, overlap, start);
      if alignedEnd >= |chars| && alignedEnd - start < size / 4 && chunks != [] {
        break;
      }
      var w := Window(start, alignedEnd);
      AppendChunk(docId, chars, digest, chunks, done, w);
      chunks := chunks + [ChunkOf(docId, chars, digest, w, sequence)];
      done := done + [w];
      sequence := sequence + 1;
      start := if alignedEnd >= |chars| then |chars| else alignedEnd - overlap;
    }
    TakeWindow(done, chars, size, overlap, start, chunks == []);
    WindowsAreOk(chars, size, overlap, 0, true);
  }

  lemma NoChunks(docId: string, chars: string, digest: string -> string)
    ensures AreChunksOf(docId, chars, digest, [], [])
  {
  }

  /** One turn of the loop: done, produce nothing more, or produce one window. */
  lemma TakeWindow(done: seq<Window>, chars: string, size: nat, overlap: nat, start: nat, first: bool)
    requires size > overlap && start <= |chars|
    ensures start == |chars| ==> done + Windows(chars, size, overlap, start, first) == done
    ensures start < |chars| ==>
              var end := WindowEnd(chars, size, overlap, start);
              var next := if end >= |chars| then |chars| else end - overlap;
              done + Windows(chars, size, overlap, start, first) ==
              if end >= |chars| && end - start < size / 4 && !first then done
              else (done + [Window(start, end)]) + Windows(chars, size, overlap, next, false)
  {
    WindowsUnfold(chars, size, overlap, start, first);
  }

  lemma WindowsUnfold(chars: string, size: nat, overlap: nat, start: nat, first: bool)
    requires size > overlap
    ensures start >= |chars| ==> Windows(chars, size, overlap, start, first) == []
    ensures start < |chars| ==>
              var end := WindowEnd(chars, size, overlap, start);
              Windows(chars, size, overlap, start, first) ==
              if end >= |chars| && end - start < size / 4 && !first then []
              else
                var next := if end >= |chars| then |chars| else end - overlap;
                [Window(start, end)] + Windows(chars, size, overlap, next, false)
  {
  }
}
