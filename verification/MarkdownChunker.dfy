/**
 From the lines of a Markdown document to its chunks.
 */
module MarkdownChunker {
  import opened MarkdownBlocks
  import opened MarkdownGroups
  import opened MarkdownPacking
  import opened ChunkIds

  /** Something that is not white space. */
  predicate HasInk(s: string, space: char -> bool) {
    exists i :: 0 <= i < |s| && !space(s[i])
  }

  lemma {:induction false} BlankHasNoInk(s: string, space: char -> bool)
    ensures IsBlank(s, space) <==> !HasInk(s, space)
  {
    if s != [] && space(s[0]) {
      BlankHasNoInk(s[1..], space);
      assert HasInk(s, space) ==> HasInk(s[1..], space) by {
        assert forall i | 0 < i < |s| :: s[1..][i - 1] == s[i];
      }
    } else if s != [] {
      assert !space(s[0]);
    }
  }

  lemma InkInPart(whole: string, part: string, at: nat, space: char -> bool)
    requires at + |part| <= |whole| && whole[at..at + |part|] == part && HasInk(part, space)
    ensures HasInk(whole, space)
  {
    var i :| 0 <= i < |part| && !space(part[i]);
    assert whole[at + i] == part[i];
  }

  lemma {:induction false} InkOfJoin(lines: seq<Line>, k: nat, space: char -> bool)
    requires k < |lines| && HasInk(lines[k], space)
    ensures HasInk(Join(lines), space)
  {
    hide HasInk;
    var n := |lines| - 1;
    if n == 0 {
      assert Join(lines) == lines[0];
    } else if k < n {
      InkOfJoin(lines[..n], k, space);
      InkInPart(Join(lines), Join(lines[..n]), 0, space);
    } else {
      InkInPart(Join(lines), lines[n], |Join(lines[..n])| + 1, space);
    }
  }

  lemma InkOfTrimmed(s: string, space: char -> bool)
    requires HasInk(s, space)
    ensures HasInk(TrimEnd(s, space), space)
  {
    var i :| 0 <= i < |s| && !space(s[i]);
    assert TrimEnd(s, space)[i] == s[i];
  }

  /** No block is blank. */
  lemma BlockHasInk(lines: seq<Line>, span: Span, space: char -> bool)
    requires SpanOk(lines, span, space)
    ensures HasInk(BlockOf(lines, span, space).text, space)
  {
    hide HasInk, GoesOn, KindOf, IsBlank;
    BlankHasNoInk(lines[span.lo], space);
    if span.kind.HeadingKind? {
      InkOfTrimmed(lines[span.lo], space);
    } else {
      var part := lines[span.lo..span.hi];
      assert part[0] == lines[span.lo];
      InkOfJoin(part, 0, space);
    }
  }

  ghost predicate AllInked(blocks: seq<Block>, space: char -> bool) {
    forall i | 0 <= i < |blocks| :: HasInk(blocks[i].text, space)
  }

  lemma ParsedBlocksHaveInk(lines: seq<Line>, blocks: seq<Block>, space: char -> bool)
    requires IsBlocksOf(lines, blocks, space)
    ensures AllInked(blocks, space) && NoneEmpty(blocks)
  {
    hide HasInk, GapOk, SpanOk, BlockOf;
    var spans :| IsParse(lines, spans, space) && AreBlocksOf(lines, blocks, spans, space);
    forall i | 0 <= i < |blocks| ensures HasInk(blocks[i].text, space) && blocks[i].text != "" {
      BlockOfIff(lines, blocks[i], spans[i], space);
      BlockHasInk(lines, spans[i], space);
      NoInkInNothing(space);
    }
  }

  lemma NoInkInNothing(space: char -> bool)
    ensures !HasInk("", space)
  {
  }

  function TextsOf(group: Group): (r: seq<string>)
    ensures |r| == |group| && forall i | 0 <= i < |r| :: r[i] == group[i].text
  {
    seq(|group|, i requires 0 <= i < |group| => group[i].text)
  }

  function TextOf(group: Group): string {
    Join(TextsOf(group))
  }

  lemma {:induction false} GroupsPartOfFlatten(groups: seq<Group>, i: nat)
    requires i < |groups|
    ensures forall b | b in groups[i] :: b in Flatten(groups)
  {
    if i < |groups| - 1 {
      GroupsPartOfFlatten(groups[..|groups| - 1], i);
    }
  }

  /** The check for blank groups never finds one. */
  lemma NoGroupIsBlank(blocks: seq<Block>, max: nat, i: nat, space: char -> bool)
    requires AllInked(blocks, space) && NoneEmpty(blocks) && i < |Grouped(blocks, max)|
    ensures !IsBlank(TextOf(Grouped(blocks, max)[i]), space)
  {
    hide Grouped, CutsOk, IsBlank, HasInk;
    var groups := Grouped(blocks, max);
    GroupingIsSound(blocks, max);
    assert Fits(groups[i], max);
    GroupsPartOfFlatten(groups, i);
    assert groups[i][0] in blocks;
    InkOfJoin(TextsOf(groups[i]), 0, space);
    BlankHasNoInk(TextOf(groups[i]), space);
  }

  datatype Chunk = Chunk(id: string, documentId: string, text: string, sequence: nat)

  /** Chunk number `i` holds the texts of the group's blocks, one newline between each two, and says whose it is. */
  ghost predicate IsChunkOf(docId: string, group: Group, i: nat, digest: string -> string, chunk: Chunk) {
    && IsJoined(chunk.text, TextsOf(group))
    && chunk.documentId == docId && chunk.sequence == i
    && chunk.id == MakeChunkId(docId, i, digest(chunk.text))
  }

  /** The length that grouping reckons with is that of the text. */
  lemma {:induction false} TextLength(group: Group)
    ensures |TextOf(group)| == BlocksLen(group)
  {
    if group != [] {
      var n := |group| - 1;
      TextLength(group[..n]);
      assert TextsOf(group)[..n] == TextsOf(group[..n]);
    }
  }

  /** So does the length of whatever is the blocks' texts, one newline between each two. */
  lemma JoinedLength(text: string, group: Group)
    requires IsJoined(text, TextsOf(group))
    ensures text == TextOf(group) && |text| == BlocksLen(group)
  {
    JoinedIff(text, TextsOf(group));
    TextLength(group);
  }

  lemma BlankParsesToNothing(lines: seq<Line>, max: nat, space: char -> bool)
    requires forall i | 0 <= i < |lines| :: IsBlank(lines[i], space)
    ensures IsBlocksOf(lines, [], space) && Grouped([], max) == []
  {
    hide IsBlank;
    assert IsParse(lines, [], space) && AreBlocksOf(lines, [], [], space);
  }

  /** One chunk for each group of the parsed blocks, numbered from zero. */
  ghost predicate AreChunksOf(docId: string, lines: seq<Line>, max: nat, digest: string -> string, space: char -> bool,
      chunks: seq<Chunk>) {
    exists blocks ::
      && IsBlocksOf(lines, blocks, space)
      && |chunks| == |Grouped(blocks, max)|
      && forall i | 0 <= i < |chunks| :: IsChunkOf(docId, Grouped(blocks, max)[i], i, digest, chunks[i])
  }

  /** Chunk a document given as lines: one chunk per group, numbered without gaps. */
  method ChunkMarkdown(docId: string, lines: seq<Line>, max: nat, digest: string -> string, space: char -> bool)
    returns (chunks: seq<Chunk>)
    ensures AreChunksOf(docId, lines, max, digest, space, chunks)
  {
    hide IsBlocksOf, Grouped, IsBlank, Join, CutsOk, AllFit, NoneEmpty, AllInked, Flatten, MakeChunkId,
      IsJoined;
    if forall i | 0 <= i < |lines| :: IsBlank(lines[i], space) {
      BlankParsesToNothing(lines, max, space);
      return [];
    }
    var blocks := ParseBlocks(lines, space);
    ParsedBlocksHaveInk(lines, blocks, space);
    var groups := GroupBlocks(blocks, max);
    chunks := [];
    for i := 0 to |groups|
      invariant |chunks| == i
      invariant forall j | 0 <= j < i :: IsChunkOf(docId, groups[j], j, digest, chunks[j])
    {
      var text := Join(TextsOf(groups[i]));
      NoGroupIsBlank(blocks, max, i, space);
      JoinedIff(text, TextsOf(groups[i]));
      if IsBlank(text, space) {
        continue;
      }
      chunks := chunks + [Chunk(MakeChunkId(docId, i, digest(text)), docId, text, i)];
    }
  }

  /** The chunks are those of one parse, whose blocks they hold in order, none lost, none twice, packed while they
      fit; a chunk is longer than `max` only if it is one block, or a heading and one block. */
  lemma ChunksHoldTheBlocks(docId: string, lines: seq<Line>, max: nat, digest: string -> string, space: char -> bool,
                            chunks: seq<Chunk>, blocks: seq<Block>)
    requires AreChunksOf(docId, lines, max, digest, space, chunks) && IsBlocksOf(lines, blocks, space)
    ensures exists groups: seq<Group> ::
              && Flatten(groups) == blocks && CutsOk(groups) && IsPacking(Sections(blocks), max, groups)
              && |groups| == |chunks|
              && (forall i | 0 <= i < |chunks| :: IsChunkOf(docId, groups[i], i, digest, chunks[i]))
              && (forall i | 0 <= i < |chunks| :: HasRoom(chunks[i].text, groups[i], max))
  {
    hide IsBlocksOf, Grouped, TextOf, CutsOk, AllFit, Flatten, MakeChunkId, NoneEmpty, IsJoined, HasRoom, Sections,
      IsPacking;
    var parsed :| IsBlocksOf(lines, parsed, space) && |chunks| == |Grouped(parsed, max)|
      && forall i | 0 <= i < |chunks| :: IsChunkOf(docId, Grouped(parsed, max)[i], i, digest, chunks[i]);
    BlocksAreUnique(lines, parsed, blocks, space);
    ParsedBlocksHaveInk(lines, blocks, space);
    GroupingIsSound(blocks, max);
    GroupedIsPacking(blocks, max);
    forall i | 0 <= i < |chunks| ensures HasRoom(chunks[i].text, Grouped(parsed, max)[i], max) {
      AllFitRoom(chunks[i].text, Grouped(parsed, max), i, max);
    }
  }

  /** The text is within the bound, or the group cannot be helped. */
  ghost predicate HasRoom(text: string, group: Group, max: nat) {
    |text| <= max || |group| == 1 || (|group| == 2 && group[0].kind == HeadingKind)
  }

  lemma AllFitRoom(text: string, groups: seq<Group>, i: nat, max: nat)
    requires AllFit(groups, max) && i < |groups| && IsJoined(text, TextsOf(groups[i]))
    ensures HasRoom(text, groups[i], max)
  {
    hide BlocksLen, IsJoined, TextOf;
    assert Fits(groups[i], max);
    JoinedLength(text, groups[i]);
  }
}
