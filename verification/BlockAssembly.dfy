/**
 Folding a model's stream of chunks into its final blocks, status and error.
 */
module BlockAssembly {
  import opened Common

  datatype Block =
    | TextBlock(text: string)
    | ReasoningBlock(text: string)
    | ToolCallBlock(callId: string, name: string, arguments: string)

  datatype BlockType = TextType | ReasoningType | ToolCallType

  datatype FinishReason = Stop | ToolCalls | MaxTokens | ContentFilter | Aborted | Error

  datatype Status = Completed | Incomplete | Failed

  datatype Usage = Usage(input: nat, output: nat)

  datatype Chunk =
    | BlockStart(index: nat, blockType: BlockType)
    | Delta(index: nat, text: string)
    | BlockEnd(index: nat, block: Block)
    | UsageChunk(usage: Usage)
    | Finish(reason: FinishReason)

  /** The reason an error carries. */
  datatype Assembly = Assembly(
    blocks: map<nat, Block>,
    open: map<nat, BlockType>,
    usage: Usage,
    status: Status,
    error: Option<FinishReason>,
    finish: Option<FinishReason>)

  const NOTHING := Assembly(map[], map[], Usage(0, 0), Completed, None, None)

  predicate IsNormal(reason: FinishReason) {
    reason.Stop? || reason.ToolCalls?
  }

  function Pushed(a: Assembly, chunk: Chunk): Assembly {
    match chunk
    case BlockStart(index, blockType) => a.(open := a.open[index := blockType])
    case Delta(_, _) => a
    case BlockEnd(index, block) => a.(blocks := a.blocks[index := block], open := a.open - {index})
    case UsageChunk(usage) => a.(usage := usage)
    case Finish(reason) =>
      match reason
      case Stop => a.(finish := Some(reason))
      case ToolCalls => a.(finish := Some(reason))
      case MaxTokens => a.(finish := Some(reason), status := Incomplete)
      case _ => a.(finish := Some(reason), status := Failed, error := Some(reason))
  }

  function Folded(chunks: seq<Chunk>): Assembly {
    if chunks == [] then NOTHING else Pushed(Folded(chunks[..|chunks| - 1]), chunks[|chunks| - 1])
  }

  /** A block was left open and nothing said that the stream had ended. */
  function FinalStatus(a: Assembly): Status {
    if a.open != map[] && a.status.Completed? && a.finish.None? then Incomplete else a.status
  }

  // ---------------------------------------------------------------------------------------------
  // What the stream says
  // ---------------------------------------------------------------------------------------------

  /** The last chunk that satisfies `p`. */
  ghost function Last(chunks: seq<Chunk>, p: Chunk -> bool): (r: Option<Chunk>)
    ensures r.Some? ==> p(r.value)
  {
    if chunks == [] then None
    else if p(chunks[|chunks| - 1]) then Some(chunks[|chunks| - 1])
    else Last(chunks[..|chunks| - 1], p)
  }

  ghost predicate LastAt(chunks: seq<Chunk>, at: nat, p: Chunk -> bool) {
    at < |chunks| && p(chunks[at]) && forall j | at < j < |chunks| :: !p(chunks[j])
  }

  lemma {:induction false} LastIsLast(chunks: seq<Chunk>, p: Chunk -> bool)
    ensures Last(chunks, p).None? <==> forall j | 0 <= j < |chunks| :: !p(chunks[j])
    ensures Last(chunks, p).Some? ==> exists at: nat :: LastAt(chunks, at, p) && chunks[at] == Last(chunks, p).value
  {
    if chunks != [] {
      var n := |chunks| - 1;
      if p(chunks[n]) {
        assert LastAt(chunks, n, p);
      } else {
        LastIsLast(chunks[..n], p);
        assert chunks == chunks[..n] + [chunks[n]];
        if Last(chunks[..n], p).Some? {
          var at: nat :| LastAt(chunks[..n], at, p) && chunks[..n][at] == Last(chunks[..n], p).value;
          assert LastAt(chunks, at, p);
        }
      }
    }
  }

  ghost function EndOf(index: nat): Chunk -> bool {
    (c: Chunk) => c.BlockEnd? && c.index == index
  }

  ghost function StartOrEndOf(index: nat): Chunk -> bool {
    (c: Chunk) => (c.BlockStart? || c.BlockEnd?) && c.index == index
  }

  ghost function AnyFinish(): Chunk -> bool {
    (c: Chunk) => c.Finish?
  }

  ghost function AbnormalFinish(): Chunk -> bool {
    (c: Chunk) => c.Finish? && !IsNormal(c.reason)
  }

  ghost function FailedFinish(): Chunk -> bool {
    (c: Chunk) => c.Finish? && !IsNormal(c.reason) && !c.reason.MaxTokens?
  }

  /** A block is in the result iff it ended, as it ended last; it is open iff it was started after that. */
  lemma {:induction false} BlocksAreLastEnds(chunks: seq<Chunk>, index: nat)
    ensures index in Folded(chunks).blocks <==> Last(chunks, EndOf(index)).Some?
    ensures index in Folded(chunks).blocks ==> Folded(chunks).blocks[index] == Last(chunks, EndOf(index)).value.block
    ensures index in Folded(chunks).open <==>
            Last(chunks, StartOrEndOf(index)).Some? && Last(chunks, StartOrEndOf(index)).value.BlockStart?
  {
    if chunks != [] {
      BlocksAreLastEnds(chunks[..|chunks| - 1], index);
    }
  }

  function StatusFor(reason: FinishReason): Status {
    if IsNormal(reason) then Completed else if reason.MaxTokens? then Incomplete else Failed
  }

  /** Status, error and finish reason come from the last finish of the right kind. */
  lemma {:induction false} StatusIsLastAbnormal(chunks: seq<Chunk>)
    ensures Folded(chunks).status ==
            match Last(chunks, AbnormalFinish()) case None => Completed case Some(c) => StatusFor(c.reason)
    ensures Folded(chunks).error == match Last(chunks, FailedFinish()) case None => None case Some(c) => Some(c.reason)
    ensures Folded(chunks).finish == match Last(chunks, AnyFinish()) case None => None case Some(c) => Some(c.reason)
  {
    if chunks != [] {
      StatusIsLastAbnormal(chunks[..|chunks| - 1]);
    }
  }

  ghost function AnyUsage(): Chunk -> bool {
    (c: Chunk) => c.UsageChunk?
  }

  /** The usage reported last. */
  lemma {:induction false} UsageIsLast(chunks: seq<Chunk>)
    ensures Folded(chunks).usage == match Last(chunks, AnyUsage()) case None => Usage(0, 0) case Some(c) => c.usage
  {
    if chunks != [] {
      UsageIsLast(chunks[..|chunks| - 1]);
    }
  }

  /** What the final branch relies on: a status still `Completed` means no finish but `Stop` or `ToolCalls`. */
  lemma CompletedMeansNormalFinish(chunks: seq<Chunk>)
    ensures Folded(chunks).status.Completed? <==> Last(chunks, AbnormalFinish()).None?
    ensures Folded(chunks).status.Completed? && Folded(chunks).finish.Some? ==> IsNormal(Folded(chunks).finish.value)
  {
    hide Folded;
    StatusIsLastAbnormal(chunks);
    LastIsLast(chunks, AbnormalFinish());
    LastIsLast(chunks, AnyFinish());
  }

  /** The block was started and has not ended since. */
  ghost predicate StillOpen(chunks: seq<Chunk>, index: nat) {
    Last(chunks, StartOrEndOf(index)).Some? && Last(chunks, StartOrEndOf(index)).value.BlockStart?
  }

  /** The status a stream stands for: that of the last finish other than `Stop` and `ToolCalls`; without one,
      incomplete iff no finish came at all and a block is open. */
  ghost function StreamStatus(chunks: seq<Chunk>): Status {
    match Last(chunks, AbnormalFinish())
    case Some(c) => StatusFor(c.reason)
    case None =>
      if Last(chunks, AnyFinish()).None? && exists index: nat :: StillOpen(chunks, index) then Incomplete else Completed
  }

  /** What the folder reports at the end is the status of the stream. */
  lemma FinalStatusIsStreamStatus(chunks: seq<Chunk>)
    ensures FinalStatus(Folded(chunks)) == StreamStatus(chunks)
  {
    hide Folded;
    StatusIsLastAbnormal(chunks);
    forall index: nat ensures index in Folded(chunks).open <==> StillOpen(chunks, index) {
      BlocksAreLastEnds(chunks, index);
    }
    hide Last, StillOpen;
    if Folded(chunks).open != map[] {
      var index :| index in Folded(chunks).open;
      assert StillOpen(chunks, index);
    }
  }

  /** Error and status agree on exactly those streams in which no `MaxTokens` is the last abnormal finish
      behind a failure. */
  lemma ErrorAgreesIff(chunks: seq<Chunk>)
    ensures (Folded(chunks).error.Some? <==> FinalStatus(Folded(chunks)).Failed?) <==>
            !(&& Last(chunks, FailedFinish()).Some?
              && Last(chunks, AbnormalFinish()).Some? && Last(chunks, AbnormalFinish()).value.reason.MaxTokens?)
  {
    hide Folded;
    StatusIsLastAbnormal(chunks);
    LastIsLast(chunks, AbnormalFinish());
    LastIsLast(chunks, FailedFinish());
  }

  /** At most one finish, as the provider adapters send. */
  ghost predicate OneFinish(chunks: seq<Chunk>) {
    forall i, j | 0 <= i < j < |chunks| :: !(chunks[i].Finish? && chunks[j].Finish?)
  }

  /** With one finish there is an error iff the stream failed, and it carries the reason of that finish. */
  lemma OneFinishAgrees(chunks: seq<Chunk>)
    requires OneFinish(chunks)
    ensures Folded(chunks).error.Some? <==> FinalStatus(Folded(chunks)).Failed?
    ensures Folded(chunks).error.Some? ==> Folded(chunks).error == Folded(chunks).finish
  {
    hide Folded;
    StatusIsLastAbnormal(chunks);
    LastIsLast(chunks, AbnormalFinish());
    LastIsLast(chunks, FailedFinish());
    LastIsLast(chunks, AnyFinish());
  }

  /** Streams with more finishes can disagree. */
  lemma ErrorOutlivesFailure()
    ensures var a := Folded([Finish(Error), Finish(MaxTokens)]); FinalStatus(a) == Incomplete && a.error == Some(Error)
  {
    var chunks := [Finish(Error), Finish(MaxTokens)];
    assert chunks[..1] == [Finish(Error)] && chunks[..1][..0] == [];
  }

  // ---------------------------------------------------------------------------------------------
  // What does not matter
  // ---------------------------------------------------------------------------------------------

  lemma {:induction false} FoldGoesOn(a: seq<Chunk>, b: seq<Chunk>, more: seq<Chunk>)
    requires Folded(a) == Folded(b)
    ensures Folded(a + more) == Folded(b + more)
  {
    hide Pushed;
    if more == [] {
      assert a + more == a && b + more == b;
    } else {
      var front, last := more[..|more| - 1], more[|more| - 1];
      FoldGoesOn(a, b, front);
      assert (a + more)[..|a + more| - 1] == a + front && (b + more)[..|b + more| - 1] == b + front;
    }
  }

  lemma FoldAppend(a: seq<Chunk>, c: Chunk)
    ensures Folded(a + [c]) == Pushed(Folded(a), c)
  {
    assert (a + [c])[..|a|] == a;
  }

  lemma DeltasDoNotMatter(before: seq<Chunk>, delta: Chunk, more: seq<Chunk>)
    requires delta.Delta?
    ensures Folded(before + [delta] + more) == Folded(before + more)
  {
    hide Folded;
    FoldAppend(before, delta);
    FoldGoesOn(before + [delta], before, more);
  }

  /** Blocks may end in any order. */
  lemma EndsCommute(before: seq<Chunk>, x: Chunk, y: Chunk, more: seq<Chunk>)
    requires x.BlockEnd? && y.BlockEnd? && x.index != y.index
    ensures Folded(before + [x] + [y] + more) == Folded(before + [y] + [x] + more)
  {
    hide Folded;
    var a := Folded(before);
    FoldAppend(before, x);
    FoldAppend(before, y);
    FoldAppend(before + [x], y);
    FoldAppend(before + [y], x);
    assert a.blocks[x.index := x.block][y.index := y.block] == a.blocks[y.index := y.block][x.index := x.block];
    assert a.open - {x.index} - {y.index} == a.open - {y.index} - {x.index};
    FoldGoesOn(before + [x] + [y], before + [y] + [x], more);
  }

  // ---------------------------------------------------------------------------------------------
  // The assembler
  // ---------------------------------------------------------------------------------------------

  ghost predicate Ascending(keys: seq<nat>) {
    forall i, j | 0 <= i < j < |keys| :: keys[i] < keys[j]
  }

  /** The values of the map by ascending key. */
  ghost predicate InOrder(out: seq<Block>, keys: seq<nat>, blocks: map<nat, Block>) {
    && Ascending(keys)
    && |out| == |keys|
    && (forall k | k in blocks :: k in keys)
    && (forall i | 0 <= i < |keys| :: keys[i] in blocks && out[i] == blocks[keys[i]])
  }

  ghost predicate IsSorted(out: seq<Block>, blocks: map<nat, Block>) {
    exists keys :: InOrder(out, keys, blocks)
  }

  lemma OrderIsUnique(a: seq<Block>, b: seq<Block>, blocks: map<nat, Block>)
    requires IsSorted(a, blocks) && IsSorted(b, blocks)
    ensures a == b
  {
    hide InOrder;
    var ks :| InOrder(a, ks, blocks);
    var ls :| InOrder(b, ls, blocks);
    SameKeys(a, b, ks, ls, blocks);
    KeysAgree(ks, ls, |ks|);
    KeysAgree(ls, ks, |ls|);
    assert ks == ks[..|ks|] && ls == ls[..|ls|];
    SameKeysSameBlocks(a, b, ks, blocks);
  }

  lemma SameKeys(a: seq<Block>, b: seq<Block>, ks: seq<nat>, ls: seq<nat>, blocks: map<nat, Block>)
    requires InOrder(a, ks, blocks) && InOrder(b, ls, blocks)
    ensures Ascending(ks) && Ascending(ls) && forall k: nat :: k in ks <==> k in ls
  {
    hide Ascending;
  }

  lemma SameKeysSameBlocks(a: seq<Block>, b: seq<Block>, keys: seq<nat>, blocks: map<nat, Block>)
    requires InOrder(a, keys, blocks) && InOrder(b, keys, blocks)
    ensures a == b
  {
    hide Ascending;
    forall i | 0 <= i < |a| ensures a[i] == b[i] {
      assert a[i] == blocks[keys[i]] == b[i];
    }
  }

  lemma {:induction false} KeysAgree(ks: seq<nat>, ls: seq<nat>, n: nat)
    requires Ascending(ks) && Ascending(ls) && n <= |ks| && forall k: nat :: k in ks <==> k in ls
    ensures n <= |ls| && ks[..n] == ls[..n]
  {
    if n > 0 {
      KeysAgree(ks, ls, n - 1);
      SamePrefix(ks, ls, n - 1);
      NextKey(ks, ls, n - 1);
      NextKey(ls, ks, n - 1);
      assert ks[..n] == ks[..n - 1] + [ks[n - 1]] && ls[..n] == ls[..n - 1] + [ls[n - 1]];
    }
  }

  lemma SamePrefix(ks: seq<nat>, ls: seq<nat>, n: nat)
    requires n <= |ks| && n <= |ls| && ks[..n] == ls[..n]
    ensures forall i | 0 <= i < n :: ks[i] == ls[i]
  {
    assert forall i | 0 <= i < n :: ks[..n][i] == ls[..n][i];
  }

  /** With equal keys before it, the key at `n` is not below the other one. */
  lemma NextKey(ks: seq<nat>, ls: seq<nat>, n: nat)
    requires Ascending(ks) && Ascending(ls) && n < |ks| && n <= |ls| && ks[n] in ls
    requires forall i | 0 <= i < n :: ks[i] == ls[i]
    ensures n < |ls| && ls[n] <= ks[n]
  {
    var i :| 0 <= i < |ls| && ls[i] == ks[n];
    assert i >= n;
  }

  /** The blocks of a stream: by ascending index, each as it ended last. */
  ghost predicate IsAssembled(out: seq<Block>, chunks: seq<Chunk>) {
    exists keys :: AssembledAt(out, keys, chunks)
  }

  ghost predicate AssembledAt(out: seq<Block>, keys: seq<nat>, chunks: seq<Chunk>) {
    && Ascending(keys)
    && |out| == |keys|
    && (forall index: nat :: index in keys <==> Last(chunks, EndOf(index)).Some?)
    && (forall i | 0 <= i < |keys| :: EndedAs(chunks, keys[i], out[i]))
  }

  ghost predicate EndedAs(chunks: seq<Chunk>, index: nat, block: Block) {
    Last(chunks, EndOf(index)) == Some(BlockEnd(index, block))
  }

  lemma SortedIsAssembled(out: seq<Block>, chunks: seq<Chunk>)
    requires IsSorted(out, Folded(chunks).blocks)
    ensures IsAssembled(out, chunks)
  {
    hide Folded, Ascending;
    var keys :| InOrder(out, keys, Folded(chunks).blocks);
    forall index: nat ensures index in keys <==> Last(chunks, EndOf(index)).Some? {
      BlocksAreLastEnds(chunks, index);
    }
    forall i | 0 <= i < |keys| ensures EndedAs(chunks, keys[i], out[i]) {
      BlocksAreLastEnds(chunks, keys[i]);
    }
    assert AssembledAt(out, keys, chunks);
  }

  lemma MinExists(s: set<nat>)
    requires s != {}
    ensures exists k :: IsMin(k, s)
  {
    var k :| k in s;
    if s == {k} {
      assert IsMin(k, s);
    } else {
      MinExists(s - {k});
      var m :| IsMin(m, s - {k});
      assert forall j | j in s :: j == k || j in s - {k};
      assert IsMin(if m <= k then m else k, s);
    }
  }

  predicate IsMin(k: nat, s: set<nat>) {
    k in s && forall j | j in s :: k <= j
  }

  class BlockAssembler {
    var blocks: map<nat, Block>
    var open: map<nat, BlockType>
    var usage: Usage
    var status: Status
    var error: Option<FinishReason>
    var finish: Option<FinishReason>

    /** All chunks consumed so far. */
    ghost var stream: seq<Chunk>

    ghost function Contents(): Assembly
      reads this
    {
      Assembly(blocks, open, usage, status, error, finish)
    }

    /** The fields say of the stream what `BlocksAreLastEnds`, `StatusIsLastAbnormal` and `UsageIsLast` spell out. */
    ghost predicate Valid()
      reads this
    {
      Contents() == Folded(stream)
    }

    constructor ()
      ensures Valid() && stream == []
    {
      blocks, open, usage := map[], map[], Usage(0, 0);
      status, error, finish := Completed, None, None;
      stream := [];
    }

    /** One more chunk of the stream. */
    method Push(chunk: Chunk)
      requires Valid()
      modifies this
      ensures Valid() && stream == old(stream) + [chunk]
    {
      hide Folded;
      ghost var after := Pushed(Contents(), chunk);
      FoldAppend(stream, chunk);
      stream := stream + [chunk];
      Take(chunk);
      assert Contents() == after;
    }

    /** One chunk, in the fields. */
    method Take(chunk: Chunk)
      modifies `blocks, `open, `usage, `status, `error, `finish
      ensures Contents() == Pushed(old(Contents()), chunk)
    {
      match chunk
      case BlockStart(index, blockType) =>
        open := open[index := blockType];
      case Delta(_, _) =>
      case BlockEnd(index, block) =>
        blocks := blocks[index := block];
        open := open - {index};
      case UsageChunk(u) =>
        usage := u;
      case Finish(reason) =>
        finish := Some(reason);
        match reason {
          case Stop =>
          case ToolCalls =>
          case MaxTokens =>
            status := Incomplete;
          case _ =>
            status := Failed;
            error := Some(reason);
        }
    }

    /** Consume a whole stream. */
    method PushAll(chunks: seq<Chunk>)
      requires Valid()
      modifies this
      ensures Valid() && stream == old(stream) + chunks
    {
      hide Folded;
      for i := 0 to |chunks|
        invariant Valid() && stream == old(stream) + chunks[..i]
      {
        assert chunks[..i + 1] == chunks[..i] + [chunks[i]];
        Push(chunks[i]);
      }
      assert chunks[..|chunks|] == chunks;
    }

    /** The blocks, status, finish reason and error of the stream consumed. */
    method FinishWithReason()
      returns (out: seq<Block>, u: Usage, s: Status, reason: Option<FinishReason>, e: Option<FinishReason>)
      requires Valid()
      ensures IsAssembled(out, stream)
      ensures s == StreamStatus(stream)
      ensures u == match Last(stream, AnyUsage()) case None => Usage(0, 0) case Some(c) => c.usage
      ensures reason == match Last(stream, AnyFinish()) case None => None case Some(c) => Some(c.reason)
      ensures e == match Last(stream, FailedFinish()) case None => None case Some(c) => Some(c.reason)
    {
      hide Folded, StreamStatus, IsAssembled, Last, IsSorted;
      s := status;
      if open != map[] && status.Completed? {
        match finish {
          case None => s := Incomplete;
          case Some(_) =>
        }
      }
      u, reason, e := usage, finish, error;
      out := Sorted();
      SortedIsAssembled(out, stream);
      FinalStatusIsStreamStatus(stream);
      StatusIsLastAbnormal(stream);
      UsageIsLast(stream);
    }

    /** The values of the ordered map. */
    method Sorted() returns (out: seq<Block>)
      ensures IsSorted(out, blocks)
    {
      out := [];
      ghost var keys: seq<nat> := [];
      var left := blocks.Keys;
      while left != {}
        invariant left <= blocks.Keys && |out| == |keys| && Ascending(keys)
        invariant forall k | k in blocks :: k in keys || k in left
        invariant forall i | 0 <= i < |keys| :: keys[i] in blocks && out[i] == blocks[keys[i]]
        invariant forall i, k | 0 <= i < |keys| && k in left :: keys[i] < k
        decreases left
      {
        MinExists(left);
        var k :| k in left && IsMin(k, left);
        out, keys := out + [blocks[k]], keys + [k];
        left := left - {k};
      }
      assert InOrder(out, keys, blocks);
    }
  }
}
