/**
 Gathering Markdown blocks into chunks: sections (a heading and what follows it) are packed until
 they would pass `max` characters; a section that is too long by itself is cut between its blocks.
 */
module MarkdownGroups {
  import opened MarkdownBlocks

  type Group = seq<Block>

  predicate IsHeading(b: Block) {
    b.kind.HeadingKind?
  }

  /** Characters of the blocks joined by newlines. */
  function BlocksLen(blocks: Group): nat {
    if blocks == [] then 0
    else BlocksLen(blocks[..|blocks| - 1]) + |blocks[|blocks| - 1].text| + if |blocks| > 1 then 1 else 0
  }

  function Flatten(groups: seq<Group>): Group {
    if groups == [] then [] else Flatten(groups[..|groups| - 1]) + groups[|groups| - 1]
  }

  /** Finished groups and the one being filled. */
  datatype Filling = Filling(out: seq<Group>, cur: Group)

  function Closed(f: Filling): seq<Group> {
    if f.cur == [] then f.out else f.out + [f.cur]
  }

  /** The block does not fit, and the group is not just a heading waiting for its body. */
  predicate MustCut(cur: Group, block: Block, max: nat) {
    cur != [] && BlocksLen(cur) + |block.text| + 1 > max && !(|cur| == 1 && IsHeading(cur[0]))
  }

  function AddBlock(f: Filling, block: Block, max: nat): Filling {
    if MustCut(f.cur, block, max) then Filling(f.out + [f.cur], [block]) else Filling(f.out, f.cur + [block])
  }

  function Greedy(blocks: Group, max: nat): Filling {
    if blocks == [] then Filling([], []) else AddBlock(Greedy(blocks[..|blocks| - 1], max), blocks[|blocks| - 1], max)
  }

  /** Cut before every heading. */
  function Sections(blocks: Group): (r: seq<Group>)
    ensures blocks != [] ==> r != []
  {
    if blocks == [] then []
    else
      var before := Sections(blocks[..|blocks| - 1]);
      AddToSections(before, blocks[|blocks| - 1])
  }

  function AddToSections(sections: seq<Group>, b: Block): (r: seq<Group>)
    ensures r != []
  {
    if IsHeading(b) || sections == [] then sections + [[b]]
    else sections[..|sections| - 1] + [sections[|sections| - 1] + [b]]
  }

  function AddSection(f: Filling, section: Group, max: nat): Filling {
    var full := BlocksLen(f.cur) > 0 && BlocksLen(f.cur) + BlocksLen(section) + 1 > max;
    var room := if full then Filling(f.out + [f.cur], []) else f;
    if BlocksLen(section) <= max then Filling(room.out, room.cur + section)
    else Filling(room.out + Closed(Greedy(section, max)), room.cur)
  }

  function Packed(sections: seq<Group>, max: nat): Filling {
    if sections == [] then Filling([], [])
    else AddSection(Packed(sections[..|sections| - 1], max), sections[|sections| - 1], max)
  }

  /** The groups of a list of blocks. */
  function Grouped(blocks: Group, max: nat): seq<Group> {
    Closed(Packed(Sections(blocks), max))
  }

  // ---------------------------------------------------------------------------------------------
  // Sections
  // ---------------------------------------------------------------------------------------------

  /** Not empty, and a heading only in front. */
  predicate IsSection(s: Group) {
    s != [] && forall i | 0 < i < |s| :: !IsHeading(s[i])
  }

  predicate AreSections(sections: seq<Group>) {
    && (forall i | 0 <= i < |sections| :: IsSection(sections[i]))
    && (forall i | 0 < i < |sections| :: sections[i] != [] && IsHeading(sections[i][0]))
  }

  lemma FlattenAppend(groups: seq<Group>, g: Group)
    ensures Flatten(groups + [g]) == Flatten(groups) + g
  {
    assert (groups + [g])[..|groups|] == groups;
  }

  lemma {:induction false} FlattenConcat(a: seq<Group>, b: seq<Group>)
    ensures Flatten(a + b) == Flatten(a) + Flatten(b)
  {
    if b == [] {
      assert a + b == a;
    } else {
      FlattenConcat(a, b[..|b| - 1]);
      assert (a + b)[..|a + b| - 1] == a + b[..|b| - 1];
    }
  }

  lemma FlattenClosed(f: Filling)
    ensures Flatten(Closed(f)) == Flatten(f.out) + f.cur
  {
    FlattenAppend(f.out, f.cur);
  }

  /** Sections cut the blocks before the headings and nowhere else. */
  lemma {:induction false} SectionsCutAtHeadings(blocks: Group)
    ensures Flatten(Sections(blocks)) == blocks && AreSections(Sections(blocks))
  {
    hide AreSections, AddToSections;
    if blocks != [] {
      var front := blocks[..|blocks| - 1];
      SectionsCutAtHeadings(front);
      AddToSectionsKeeps(Sections(front), blocks[|blocks| - 1]);
      assert blocks == front + [blocks[|blocks| - 1]];
    } else {
      assert AreSections([]) by { NoSections(); }
    }
  }

  lemma NoSections()
    ensures AreSections([])
  {
  }

  lemma AddToSectionsKeeps(sections: seq<Group>, b: Block)
    requires AreSections(sections)
    ensures AreSections(AddToSections(sections, b))
    ensures Flatten(AddToSections(sections, b)) == Flatten(sections) + [b]
  {
    hide Flatten, AreSections;
    if IsHeading(b) || sections == [] {
      FlattenAppend(sections, [b]);
      StartSection(sections, b);
    } else {
      var front, last := sections[..|sections| - 1], sections[|sections| - 1];
      FlattenAppend(front, last + [b]);
      FlattenAppend(front, last);
      assert front + [last] == sections;
      assert Flatten(front) + (last + [b]) == Flatten(front) + last + [b];
      ExtendSection(sections, b);
    }
  }

  lemma StartSection(sections: seq<Group>, b: Block)
    requires AreSections(sections) && (IsHeading(b) || sections == [])
    ensures AreSections(sections + [[b]])
  {
    hide IsHeading;
  }

  lemma ExtendSection(sections: seq<Group>, b: Block)
    requires AreSections(sections) && !IsHeading(b) && sections != []
    ensures AreSections(sections[..|sections| - 1] + [sections[|sections| - 1] + [b]])
  {
    hide IsHeading, IsSection;
    var n := |sections| - 1;
    assert IsSection(sections[n] + [b]) by {
      GrowSection(sections[n], b);
    }
    assert sections[n] != [] by { GrowSection(sections[n], b); }
  }

  lemma GrowSection(s: Group, b: Block)
    requires IsSection(s) && !IsHeading(b)
    ensures IsSection(s + [b]) && s != []
  {
  }

  // ---------------------------------------------------------------------------------------------
  // Lengths
  // ---------------------------------------------------------------------------------------------

  predicate NoneEmpty(blocks: Group) {
    forall i | 0 <= i < |blocks| :: blocks[i].text != ""
  }

  lemma LenAppend(a: Group, b: Block)
    ensures BlocksLen(a + [b]) == BlocksLen(a) + |b.text| + if a == [] then 0 else 1
  {
    assert (a + [b])[..|a|] == a;
  }

  lemma {:induction false} LenConcat(a: Group, b: Group)
    ensures BlocksLen(a + b) == BlocksLen(a) + BlocksLen(b) + if a == [] || b == [] then 0 else 1
  {
    if b == [] {
      assert a + b == a;
    } else {
      LenConcat(a, b[..|b| - 1]);
      assert (a + b)[..|a + b| - 1] == a + b[..|b| - 1];
    }
  }

  lemma LenIsPositive(a: Group)
    requires NoneEmpty(a) && a != []
    ensures BlocksLen(a) > 0
  {
  }

  // ---------------------------------------------------------------------------------------------
  // Nothing is lost, groups fit, headings stay with their bodies
  // ---------------------------------------------------------------------------------------------

  /** Within the bound, or one block, or a heading and one block. */
  predicate Fits(g: Group, max: nat) {
    g != [] && (BlocksLen(g) <= max || |g| == 1 || (|g| == 2 && IsHeading(g[0])))
  }

  predicate AllFit(groups: seq<Group>, max: nat) {
    forall i | 0 <= i < |groups| :: Fits(groups[i], max)
  }

  /** `b` does not start with a body block torn from a heading that ends `a`. */
  predicate CutOk(a: Group, b: Group) {
    a != [] && b != [] && IsHeading(a[|a| - 1]) ==> IsHeading(b[0])
  }

  ghost predicate CutsOk(groups: seq<Group>) {
    forall i, j | 0 <= i && j == i + 1 && j < |groups| :: CutOk(groups[i], groups[j])
  }

  ghost predicate FillingOk(f: Filling, max: nat) {
    && AllFit(f.out, max)
    && (f.cur != [] ==> Fits(f.cur, max))
    && CutsOk(Closed(f))
  }

  lemma CutsAppend(groups: seq<Group>, g: Group)
    requires CutsOk(groups) && (groups != [] ==> CutOk(groups[|groups| - 1], g))
    ensures CutsOk(groups + [g])
  {
    var longer := groups + [g];
    forall i, j | 0 <= i && j == i + 1 && j < |longer| ensures CutOk(longer[i], longer[j]) {
      assert j < |groups| ==> CutOk(groups[i], groups[j]);
    }
  }

  lemma CutsGrow(groups: seq<Group>, g: Group, g': Group)
    requires CutsOk(groups + [g]) && g != [] && g <= g'
    ensures CutsOk(groups + [g'])
  {
    var was, longer := groups + [g], groups + [g'];
    forall i, j | 0 <= i && j == i + 1 && j < |longer| ensures CutOk(longer[i], longer[j]) {
      assert CutOk(was[i], was[j]);
    }
  }

  lemma CutsConcat(a: seq<Group>, b: seq<Group>)
    requires CutsOk(a) && CutsOk(b) && (a != [] && b != [] ==> CutOk(a[|a| - 1], b[0]))
    ensures CutsOk(a + b)
  {
    var c := a + b;
    forall i, j | 0 <= i && j == i + 1 && j < |c| ensures CutOk(c[i], c[j]) {
      assert j < |a| ==> CutOk(a[i], a[j]);
      assert i >= |a| ==> CutOk(b[i - |a|], b[j - |a|]);
    }
  }

  /** What the greedy pass over a section keeps. */
  ghost predicate GreedyOk(f: Filling, blocks: Group, max: nat) {
    && FillingOk(f, max)
    && Flatten(f.out) + f.cur == blocks
    && (blocks != [] ==> f.cur != [])
    && (f.cur != [] && IsHeading(f.cur[|f.cur| - 1]) ==> |f.cur| == 1)
  }

  lemma AddBlockKeeps(f: Filling, blocks: Group, b: Block, max: nat)
    requires GreedyOk(f, blocks, max) && (blocks != [] ==> !IsHeading(b))
    ensures GreedyOk(AddBlock(f, b, max), blocks + [b], max)
  {
    hide CutsOk, Flatten, BlocksLen;
    var g := AddBlock(f, b, max);
    LenAppend(f.cur, b);
    if MustCut(f.cur, b, max) {
      FlattenAppend(f.out, f.cur);
      CutsAppend(Closed(f), [b]);
      LenAppend([], b);
    } else if f.cur == [] {
      assert f.out == [] by {
        NoGroupsOfNothing(f.out, max);
      }
      NoCuts([b]);
      assert Flatten([]) == [] by { FlattenNothing(); }
      assert f.cur + [b] == [b] && blocks + [b] == [b] && g == Filling([], [b]);
      assert Closed(g) == [] + [[b]];
    } else {
      CutsGrow(f.out, f.cur, f.cur + [b]);
      assert Flatten(f.out) + (f.cur + [b]) == Flatten(f.out) + f.cur + [b];
    }
  }

  lemma FlattenNothing()
    ensures Flatten([]) == []
  {
  }

  lemma NoCuts(g: Group)
    ensures CutsOk([]) && CutsOk([g]) && CutsOk([] + [g])
  {
  }

  lemma NoGroupsOfNothing(groups: seq<Group>, max: nat)
    requires AllFit(groups, max) && Flatten(groups) == []
    ensures groups == []
  {
  }

  lemma NothingGrouped(max: nat)
    ensures GreedyOk(Filling([], []), [], max)
  {
  }

  lemma {:induction false} GreedyKeeps(blocks: Group, max: nat)
    requires forall i | 0 < i < |blocks| :: !IsHeading(blocks[i])
    ensures GreedyOk(Greedy(blocks, max), blocks, max)
  {
    hide GreedyOk, AddBlock;
    NothingGrouped(max);
    if blocks != [] {
      var front := blocks[..|blocks| - 1];
      GreedyKeeps(front, max);
      AddBlockKeeps(Greedy(front, max), front, blocks[|blocks| - 1], max);
      assert blocks == front + [blocks[|blocks| - 1]];
    }
  }

  /** What packing sections keeps. */
  ghost predicate PackedOk(f: Filling, blocks: Group, max: nat) {
    FillingOk(f, max) && Flatten(f.out) + f.cur == blocks
  }

  lemma AddSectionKeeps(f: Filling, blocks: Group, section: Group, max: nat)
    requires PackedOk(f, blocks, max) && NoneEmpty(blocks) && IsSection(section) &&
            (blocks != [] ==> IsHeading(section[0]))
    ensures PackedOk(AddSection(f, section, max), blocks + section, max)
  {
    hide CutsOk, Flatten, BlocksLen, Greedy;
    assert NoneEmpty(f.cur) by {
      assert forall i | 0 <= i < |f.cur| :: f.cur[i] == blocks[|Flatten(f.out)| + i];
    }
    var full := BlocksLen(f.cur) > 0 && BlocksLen(f.cur) + BlocksLen(section) + 1 > max;
    var room := if full then Filling(f.out + [f.cur], []) else f;
    if f.cur != [] {
      LenIsPositive(f.cur);
    }
    assert PackedOk(room, blocks, max) by {
      LenOfNothing();
      FlattenAppend(f.out, f.cur);
    }
    if BlocksLen(section) <= max {
      PackShort(room, blocks, section, max);
    } else {
      LenOfNothing();
      PackLong(room, blocks, section, max);
    }
  }

  lemma LenOfNothing()
    ensures BlocksLen([]) == 0
  {
  }

  /** Where the next section starts, any cut is fine. */
  lemma CutAtSection(groups: seq<Group>, section: Group, max: nat)
    requires AllFit(groups, max) && section != [] && (Flatten(groups) != [] ==> IsHeading(section[0]))
    ensures groups != [] ==> forall g | g != [] && g[0] == section[0] :: CutOk(groups[|groups| - 1], g)
  {
    hide Flatten, Fits;
    if Flatten(groups) == [] {
      NoGroupsOfNothing(groups, max);
    }
  }

  lemma PackShort(room: Filling, blocks: Group, section: Group, max: nat)
    requires PackedOk(room, blocks, max) && IsSection(section) && (blocks != [] ==> IsHeading(section[0]))
    requires room.cur != [] ==> BlocksLen(room.cur) + BlocksLen(section) + 1 <= max
    requires BlocksLen(section) <= max
    ensures PackedOk(Filling(room.out, room.cur + section), blocks + section, max)
  {
    hide CutsOk, Flatten, BlocksLen, AllFit;
    var grown := room.cur + section;
    LenConcat(room.cur, section);
    LenOfNothing();
    assert Flatten(room.out) + grown == Flatten(room.out) + room.cur + section;
    GrowCuts(room, section, max);
  }

  lemma GrowCuts(room: Filling, section: Group, max: nat)
    requires FillingOk(room, max) && section != []
    requires Flatten(room.out) + room.cur != [] ==> IsHeading(section[0])
    ensures CutsOk(room.out + [room.cur + section])
  {
    hide CutsOk, Flatten, Fits;
    if room.cur == [] {
      assert Flatten(room.out) + room.cur == Flatten(room.out) && room.cur + section == section;
      CutAtSection(room.out, section, max);
      CutsAppend(room.out, section);
    } else {
      CutsGrow(room.out, room.cur, room.cur + section);
    }
  }

  lemma PackLong(room: Filling, blocks: Group, section: Group, max: nat)
    requires PackedOk(room, blocks, max) && IsSection(section) && (blocks != [] ==> IsHeading(section[0]))
    requires room.cur == []
    ensures PackedOk(Filling(room.out + Closed(Greedy(section, max)), []), blocks + section, max)
  {
    hide CutsOk, Flatten, BlocksLen, Greedy;
    var g := Greedy(section, max);
    GreedyKeeps(section, max);
    FlattenClosed(g);
    FlattenConcat(room.out, Closed(g));
    assert AllFit(Closed(g), max);
    FirstOfFlatten(Closed(g), max);
    CutAtSection(room.out, section, max);
    CutsConcat(room.out, Closed(g));
  }

  lemma {:induction false} FirstOfFlatten(groups: seq<Group>, max: nat)
    requires AllFit(groups, max) && groups != []
    ensures groups[0] <= Flatten(groups)
  {
    hide Fits;
    if |groups| > 1 {
      FirstOfFlatten(groups[..|groups| - 1], max);
    } else {
      assert Flatten(groups[..0]) == [];
    }
  }

  lemma {:induction false} PackedKeeps(sections: seq<Group>, max: nat)
    requires AreSections(sections) && NoneEmpty(Flatten(sections))
    ensures PackedOk(Packed(sections, max), Flatten(sections), max)
  {
    hide CutsOk, BlocksLen, AddSection, Fits;
    if sections != [] {
      var front, last := sections[..|sections| - 1], sections[|sections| - 1];
      assert forall i | 0 <= i < |Flatten(front)| :: Flatten(sections)[i] == Flatten(front)[i];
      PackedKeeps(front, max);
      AddSectionKeeps(Packed(front, max), Flatten(front), last, max);
    } else {
      NoCuts([]);
    }
  }

  /** Grouping loses, repeats and reorders nothing; groups fit or cannot be helped; no heading is cut off
      from the block that follows it. */
  lemma GroupingIsSound(blocks: Group, max: nat)
    requires NoneEmpty(blocks)
    ensures Flatten(Grouped(blocks, max)) == blocks
    ensures AllFit(Grouped(blocks, max), max)
    ensures CutsOk(Grouped(blocks, max))
  {
    hide Flatten, CutsOk, Fits;
    SectionsCutAtHeadings(blocks);
    PackedKeeps(Sections(blocks), max);
    FlattenClosed(Packed(Sections(blocks), max));
  }

  /** It takes blocks that are not empty: an empty one counts for nothing and is overtaken by a long section. */
  lemma EmptyBlockIsOvertaken()
    ensures var empty, heading := Block(ParaKind, ""), Block(HeadingKind, "#");
            Flatten(Grouped([empty, heading], 0)) == [heading, empty]
  {
    hide Sections, Packed, Flatten;
    var empty, heading := Block(ParaKind, ""), Block(HeadingKind, "#");
    TwoSections(empty, heading);
    LongPassesShort([empty], [heading]);
    FlattenClosed(Filling([[heading]], [empty]));
    FlattenOne([heading]);
  }

  lemma TwoSections(first: Block, heading: Block)
    requires IsHeading(heading)
    ensures Sections([first, heading]) == [[first], [heading]]
  {
    hide Sections;
    var blocks := [first, heading];
    assert blocks[..0] == [] && blocks[..1] == [first] && blocks[..2] == blocks;
    StartGreedy(0);
    SectionsNext(blocks, 0);
    assert Sections(blocks[..1]) == [[first]];
    SectionsNext(blocks, 1);
  }

  lemma FlattenOne(g: Group)
    ensures Flatten([g]) == g
  {
    FlattenNothing();
    FlattenAppend([], g);
    assert [] + [g] == [g] && [] + g == g;
  }

  /** A section of no length waits while one that is a single block too long goes out. */
  lemma LongPassesShort(short: Group, long: Group)
    requires short != [] && |long| == 1 && BlocksLen(short) == 0 < BlocksLen(long)
    ensures Packed([short, long], 0) == Filling([long], short)
  {
    hide Packed, BlocksLen, Greedy;
    var sections := [short, long];
    assert sections[..0] == [] && sections[..1] == [short] && sections[..2] == sections;
    StartGreedy(0);
    PackedNext(sections, 0, 0);
    assert [] + short == short;
    assert Packed([short], 0) == Filling([], short);
    PackedNext(sections, 1, 0);
    assert Closed(Greedy(long, 0)) == [long] by {
      assert long[..0] == [] && long[..1] == long && long == [long[0]] && [] + [long[0]] == long;
      GreedyNext(long, 0, 0);
    }
    assert [] + [long] == [long];
  }

  // ---------------------------------------------------------------------------------------------
  // A section that fits stays in one piece
  // ---------------------------------------------------------------------------------------------

  predicate PieceAt(g: Group, s: Group, k: nat) {
    k + |s| <= |g| && g[k..k + |s|] == s
  }

  ghost predicate Whole(groups: seq<Group>, s: Group) {
    exists i: nat, k: nat :: i < |groups| && PieceAt(groups[i], s, k)
  }

  lemma WholeStays(f: Filling, section: Group, max: nat, s: Group)
    requires Whole(Closed(f), s) && (f.cur != [] ==> BlocksLen(f.cur) > 0)
    ensures Whole(Closed(AddSection(f, section, max)), s)
  {
    hide Greedy, BlocksLen;
    var g := AddSection(f, section, max);
    var i: nat, k: nat :| i < |Closed(f)| && PieceAt(Closed(f)[i], s, k);
    assert Closed(f)[i] <= Closed(g)[i];
    assert PieceAt(Closed(g)[i], s, k);
  }

  lemma ShortSectionIsWhole(f: Filling, section: Group, max: nat)
    requires section != [] && BlocksLen(section) <= max
    ensures Whole(Closed(AddSection(f, section, max)), section)
  {
    hide Greedy, BlocksLen;
    var g := AddSection(f, section, max);
    var i: nat := |Closed(g)| - 1;
    assert PieceAt(Closed(g)[i], section, |Closed(g)[i]| - |section|);
  }

  lemma CurIsPositive(sections: seq<Group>, more: Group, max: nat)
    requires AreSections(sections) && NoneEmpty(Flatten(sections) + more)
    ensures NoneEmpty(Flatten(sections))
    ensures Packed(sections, max).cur != [] ==> BlocksLen(Packed(sections, max).cur) > 0
  {
    hide Packed, BlocksLen, Flatten;
    var f, all := Packed(sections, max), Flatten(sections);
    assert NoneEmpty(all) by {
      assert forall i | 0 <= i < |all| :: (all + more)[i] == all[i];
    }
    PackedKeeps(sections, max);
    assert forall i | 0 <= i < |f.cur| :: f.cur[i] == all[|Flatten(f.out)| + i];
    if f.cur != [] {
      LenIsPositive(f.cur);
    }
  }

  /** Only a section longer than the bound is ever cut. */
  lemma {:induction false} ShortSectionsStayWhole(sections: seq<Group>, max: nat, i: nat)
    requires AreSections(sections) && NoneEmpty(Flatten(sections)) && i < |sections| && BlocksLen(sections[i]) <= max
    ensures Whole(Closed(Packed(sections, max)), sections[i])
  {
    hide Whole, AddSection, BlocksLen, Closed, NoneEmpty;
    var n := |sections| - 1;
    if i == n {
      ShortSectionIsWhole(Packed(sections[..n], max), sections[n], max);
    } else {
      CurIsPositive(sections[..n], sections[n], max);
      ShortSectionsStayWhole(sections[..n], max, i);
      WholeStays(Packed(sections[..n], max), sections[n], max, sections[i]);
    }
  }

  // ---------------------------------------------------------------------------------------------
  // The loops
  // ---------------------------------------------------------------------------------------------

  lemma GreedyNext(blocks: Group, i: nat, max: nat)
    requires i < |blocks|
    ensures Greedy(blocks[..i + 1], max) == AddBlock(Greedy(blocks[..i], max), blocks[i], max)
  {
    assert blocks[..i + 1][..i] == blocks[..i];
  }

  method SumLengths(blocks: Group) returns (n: nat)
    ensures n == BlocksLen(blocks)
  {
    n := 0;
    for i := 0 to |blocks|
      invariant n == BlocksLen(blocks[..i])
    {
      assert blocks[..i + 1][..i] == blocks[..i];
      n := n + |blocks[i].text| + if i > 0 then 1 else 0;
    }
    assert blocks[..|blocks|] == blocks;
  }

  method GreedyGroup(blocks: Group, max: nat) returns (out: seq<Group>)
    ensures out == Closed(Greedy(blocks, max))
  {
    hide Greedy, BlocksLen;
    out := [];
    var cur: Group, curLen: nat := [], 0;
    assert Greedy(blocks[..0], max) == Filling([], []) && BlocksLen([]) == 0 by { StartGreedy(max); }
    for i := 0 to |blocks|
      invariant Filling(out, cur) == Greedy(blocks[..i], max) && curLen == BlocksLen(cur)
    {
      var block := blocks[i];
      GreedyNext(blocks, i, max);
      LenAppend(cur, block);
      LenAppend([], block);
      LenOfNothing();
      var sep := if cur != [] then 1 else 0;
      if cur != [] && curLen + |block.text| + sep > max && !(|cur| == 1 && IsHeading(cur[0])) {
        out := out + [cur];
        cur, curLen := [], 0;
      }
      curLen := curLen + |block.text| + if cur != [] then 1 else 0;
      cur := cur + [block];
    }
    assert blocks[..|blocks|] == blocks;
    if cur != [] {
      out := out + [cur];
    }
  }

  lemma StartGreedy(max: nat)
    ensures Greedy([], max) == Filling([], []) && Packed([], max) == Filling([], [])
    ensures Sections([]) == []
    ensures BlocksLen([]) == 0
  {
  }

  method SplitSections(blocks: Group) returns (sections: seq<Group>)
    ensures sections == Sections(blocks)
  {
    hide Sections;
    sections := [];
    StartGreedy(0);
    assert Sections(blocks[..0]) == [];
    for i := 0 to |blocks|
      invariant sections == Sections(blocks[..i]) && AreSections(sections)
    {
      var block := blocks[i];
      SectionsNext(blocks, i);
      AddToSectionsKeeps(sections, block);
      if IsHeading(block) && sections != [] && sections[|sections| - 1] != [] {
        assert (sections + [[]])[..|sections|] == sections;
        sections := sections + [[]];
      }
      assert [] + [block] == [block];
      if sections != [] {
        sections := sections[..|sections| - 1] + [sections[|sections| - 1] + [block]];
      } else {
        sections := [[block]];
      }
    }
    assert blocks[..|blocks|] == blocks;
  }

  lemma SectionsNext(blocks: Group, i: nat)
    requires i < |blocks|
    ensures Sections(blocks[..i + 1]) == AddToSections(Sections(blocks[..i]), blocks[i])
  {
    assert blocks[..i + 1][..i] == blocks[..i];
  }

  lemma PackedNext(sections: seq<Group>, i: nat, max: nat)
    requires i < |sections|
    ensures Packed(sections[..i + 1], max) == AddSection(Packed(sections[..i], max), sections[i], max)
  {
    hide AddSection;
    assert sections[..i + 1][..i] == sections[..i];
  }

  /** Group blocks for chunking. */
  method GroupBlocks(blocks: Group, max: nat) returns (out: seq<Group>)
    ensures out == Grouped(blocks, max)
    ensures NoneEmpty(blocks) ==> Flatten(out) == blocks && AllFit(out, max) && CutsOk(out)
  {
    hide Sections, Packed, BlocksLen, Greedy, Flatten, CutsOk, AllFit, NoneEmpty;
    var sections := SplitSections(blocks);
    out := [];
    var cur: Group, curLen: nat := [], 0;
    StartGreedy(max);
    assert sections[..0] == [];
    for i := 0 to |sections|
      invariant Filling(out, cur) == Packed(sections[..i], max) && curLen == BlocksLen(cur)
    {
      var section := sections[i];
      assert section != [] by { SectionsCutAtHeadings(blocks); }
      PackedNext(sections, i, max);
      var sectionLen := SumLengths(section);
      if curLen > 0 && curLen + sectionLen + 1 > max {
        out := out + [cur];
        cur, curLen := [], 0;
      }
      if sectionLen <= max {
        LenConcat(cur, section);
        curLen := curLen + sectionLen + if cur != [] then 1 else 0;
        cur := cur + section;
      } else {
        var pieces := GreedyGroup(section, max);
        out := out + pieces;
      }
    }
    assert sections[..|sections|] == sections;
    if cur != [] {
      out := out + [cur];
    }
    if NoneEmpty(blocks) {
      GroupingIsSound(blocks, max);
    }
  }
}
