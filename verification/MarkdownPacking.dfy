/**
 Which groups a list of Markdown blocks is cut into, told without the loops that cut it: short sections are
 packed while they fit, a section that is too long is cut between its blocks and shares its groups with nobody.
 */
module MarkdownPacking {
  import opened MarkdownBlocks
  import opened MarkdownGroups

  /** Where a group comes from: the sections `lo..hi`, or the blocks `lo..hi` of section `k`. */
  datatype Origin = Run(lo: nat, hi: nat) | Piece(k: nat, lo: nat, hi: nat)

  datatype Place = Place(section: nat, block: nat)

  function Begin(o: Origin): Place {
    match o
    case Run(lo, _) => Place(lo, 0)
    case Piece(k, lo, _) => Place(k, lo)
  }

  function End(sections: seq<Group>, o: Origin): Place {
    match o
    case Run(_, hi) => Place(hi, 0)
    case Piece(k, _, hi) => if k < |sections| && hi >= |sections[k]| then Place(k + 1, 0) else Place(k, hi)
  }

  ghost predicate InRange(sections: seq<Group>, o: Origin) {
    match o
    case Run(lo, hi) => lo < hi <= |sections|
    case Piece(k, lo, hi) => k < |sections| && lo < hi <= |sections[k]|
  }

  ghost function Content(sections: seq<Group>, o: Origin): Group
    requires InRange(sections, o)
  {
    match o
    case Run(lo, hi) => Flatten(sections[lo..hi])
    case Piece(k, lo, hi) => sections[k][lo..hi]
  }

  /** The next block goes into the group: it fits, or the group is a heading that waits for its body. */
  ghost predicate Takes(g: Group, b: Block, max: nat) {
    BlocksLen(g) + 1 + |b.text| <= max || (|g| == 1 && g[0].kind == HeadingKind)
  }

  /** What may share a group: short sections that fit together, or blocks of one long section. */
  ghost predicate MayShare(sections: seq<Group>, max: nat, o: Origin)
    requires InRange(sections, o)
  {
    match o
    case Run(lo, hi) =>
      BlocksLen(Content(sections, o)) <= max && forall k | lo <= k < hi :: BlocksLen(sections[k]) <= max
    case Piece(k, lo, hi) =>
      BlocksLen(sections[k]) > max && forall j | lo < j < hi :: Takes(sections[k][lo..j], sections[k][j], max)
  }

  /** The next section, or the next block of the long section, does not fit any more. */
  ghost predicate IsFull(sections: seq<Group>, max: nat, o: Origin)
    requires InRange(sections, o)
  {
    match o
    case Run(_, hi) =>
      hi < |sections| ==> BlocksLen(Content(sections, o)) + 1 + BlocksLen(sections[hi]) > max
    case Piece(k, lo, hi) =>
      hi < |sections[k]| ==> !Takes(sections[k][lo..hi], sections[k][hi], max)
  }

  ghost predicate GroupOk(sections: seq<Group>, max: nat, g: Group, o: Origin) {
    InRange(sections, o) && g == Content(sections, o) && MayShare(sections, max, o) && IsFull(sections, max, o)
  }

  /** The groups hold what is between the two places, in order. */
  ghost predicate Chain(sections: seq<Group>, max: nat, groups: seq<Group>, origins: seq<Origin>, from: Place,
      to: Place) {
    && |origins| == |groups|
    && (forall i | 0 <= i < |groups| :: GroupOk(sections, max, groups[i], origins[i]))
    && (forall i | 0 < i < |groups| :: Begin(origins[i]) == End(sections, origins[i - 1]))
    && (groups == [] ==> from == to)
    && (groups != [] ==> Begin(origins[0]) == from && End(sections, origins[|origins| - 1]) == to)
  }

  /** The groups of the sections. */
  ghost predicate IsPacking(sections: seq<Group>, max: nat, groups: seq<Group>) {
    exists origins :: Chain(sections, max, groups, origins, Place(0, 0), Place(|sections|, 0))
  }

  lemma ChainAppend(sections: seq<Group>, max: nat, groups: seq<Group>, origins: seq<Origin>, from: Place, to: Place,
                    g: Group, o: Origin)
    requires Chain(sections, max, groups, origins, from, to)
    requires GroupOk(sections, max, g, o) && Begin(o) == to
    ensures Chain(sections, max, groups + [g], origins + [o], from, End(sections, o))
  {
    hide GroupOk;
  }

  lemma ChainConcat(sections: seq<Group>, max: nat, a: seq<Group>, oa: seq<Origin>, b: seq<Group>, ob: seq<Origin>,
                    from: Place, via: Place, to: Place)
    requires Chain(sections, max, a, oa, from, via) && Chain(sections, max, b, ob, via, to)
    ensures Chain(sections, max, a + b, oa + ob, from, to)
  {
    hide GroupOk;
    var c, o := a + b, oa + ob;
    forall i | 0 <= i < |c| ensures GroupOk(sections, max, c[i], o[i]) {
      assert i >= |a| ==> c[i] == b[i - |a|] && o[i] == ob[i - |a|];
    }
    forall i | 0 < i < |c| ensures Begin(o[i]) == End(sections, o[i - 1]) {
      assert i > |a| ==> o[i] == ob[i - |a|] && o[i - 1] == ob[i - |a| - 1];
    }
  }

  // ---------------------------------------------------------------------------------------------
  // The pieces of a long section
  // ---------------------------------------------------------------------------------------------

  /** The greedy pass over the first `m` blocks of section `k`: `f.cur` began at block `c`. */
  ghost predicate Cutting(sections: seq<Group>, k: nat, max: nat, m: nat, f: Filling, origins: seq<Origin>, c: nat)
    requires k < |sections| && m <= |sections[k]|
  {
    && Chain(sections, max, f.out, origins, Place(k, 0), Place(k, c))
    && c <= m && (0 < m ==> c < m) && f.cur == sections[k][c..m]
    && forall j | c < j < m :: Takes(sections[k][c..j], sections[k][j], max)
  }

  lemma {:induction false} GreedyCuts(sections: seq<Group>, k: nat, max: nat, m: nat)
    returns (origins: seq<Origin>, c: nat)
    requires k < |sections| && m <= |sections[k]| && BlocksLen(sections[k]) > max
    ensures Cutting(sections, k, max, m, Greedy(sections[k][..m], max), origins, c)
  {
    hide Greedy, BlocksLen, Chain, Takes;
    if m == 0 {
      StartGreedy(max);
      assert sections[k][..0] == [];
      origins, c := [], 0;
      EmptyChain(sections, max, Place(k, 0));
    } else {
      origins, c := GreedyCuts(sections, k, max, m - 1);
      GreedyNext(sections[k], m - 1, max);
      var f, b := Greedy(sections[k][..m - 1], max), sections[k][m - 1];
      if MustCut(f.cur, b, max) {
        var o := Piece(k, c, m - 1);
        CutIsFull(sections, k, max, m - 1, c);
        ChainAppend(sections, max, f.out, origins, Place(k, 0), Place(k, c), f.cur, o);
        origins, c := origins + [o], m - 1;
        assert [b] == sections[k][m - 1..m];
      } else {
        TakesIff(f.cur, b, max);
        assert f.cur + [b] == sections[k][c..m];
      }
    }
  }

  lemma EmptyChain(sections: seq<Group>, max: nat, at: Place)
    ensures Chain(sections, max, [], [], at, at)
  {
  }

  lemma TakesIff(g: Group, b: Block, max: nat)
    ensures g != [] ==> (Takes(g, b, max) <==> !MustCut(g, b, max))
  {
  }

  lemma CutIsFull(sections: seq<Group>, k: nat, max: nat, m: nat, c: nat)
    requires k < |sections| && c <= m < |sections[k]| && BlocksLen(sections[k]) > max
    requires forall j | c < j < m :: Takes(sections[k][c..j], sections[k][j], max)
    requires MustCut(sections[k][c..m], sections[k][m], max)
    ensures GroupOk(sections, max, sections[k][c..m], Piece(k, c, m)) && c < m
  {
    hide BlocksLen;
    TakesIff(sections[k][c..m], sections[k][m], max);
  }

  /** A long section by itself. */
  lemma LongSectionIsCut(sections: seq<Group>, k: nat, max: nat) returns (origins: seq<Origin>)
    requires k < |sections| && BlocksLen(sections[k]) > max
    ensures Chain(sections, max, Closed(Greedy(sections[k], max)), origins, Place(k, 0), Place(k + 1, 0))
  {
    hide Greedy, Chain, Takes;
    var m := |sections[k]|;
    var c;
    origins, c := GreedyCuts(sections, k, max, m);
    assert sections[k][..m] == sections[k];
    LongIsNotEmpty(sections[k], max);
    var f, o := Greedy(sections[k], max), Piece(k, c, m);
    assert GroupOk(sections, max, f.cur, o);
    ChainAppend(sections, max, f.out, origins, Place(k, 0), Place(k, c), f.cur, o);
    origins := origins + [o];
  }

  lemma LongIsNotEmpty(g: Group, max: nat)
    requires BlocksLen(g) > max
    ensures g != []
  {
  }

  // ---------------------------------------------------------------------------------------------
  // Packing
  // ---------------------------------------------------------------------------------------------

  /** The first `n` sections are packed; `f.cur` holds those from `lo` on. */
  ghost predicate Packing(sections: seq<Group>, max: nat, n: nat, f: Filling, origins: seq<Origin>, lo: nat)
    requires n <= |sections|
  {
    && Chain(sections, max, f.out, origins, Place(0, 0), Place(lo, 0))
    && lo <= n && f.cur == Flatten(sections[lo..n])
    && (lo < n ==> MayShare(sections, max, Run(lo, n)))
  }

  /** Sections have blocks, and blocks have text. */
  ghost predicate Solid(sections: seq<Group>) {
    forall k | 0 <= k < |sections| :: BlocksLen(sections[k]) > 0
  }

  lemma {:induction false} FlattenIsSolid(sections: seq<Group>)
    requires Solid(sections) && sections != []
    ensures BlocksLen(Flatten(sections)) > 0 && Flatten(sections) != []
  {
    hide BlocksLen, Flatten;
    var n := |sections| - 1;
    FlattenAppend(sections[..n], sections[n]);
    assert sections[..n] + [sections[n]] == sections;
    LenConcat(Flatten(sections[..n]), sections[n]);
    LenOfNothing();
    assert BlocksLen(sections[n]) > 0;
  }

  lemma {:induction false} PackedPacks(sections: seq<Group>, max: nat, n: nat)
    returns (origins: seq<Origin>, lo: nat)
    requires Solid(sections) && n <= |sections|
    ensures Packing(sections, max, n, Packed(sections[..n], max), origins, lo)
  {
    hide Packed, AddSection, Packing, Solid;
    if n == 0 {
      StartGreedy(max);
      assert sections[..0] == [];
      origins, lo := [], 0;
      NothingPacked(sections, max);
    } else {
      origins, lo := PackedPacks(sections, max, n - 1);
      PackedNext(sections, n - 1, max);
      origins, lo := SectionPacks(sections, max, n - 1, Packed(sections[..n - 1], max), origins, lo);
    }
  }

  lemma NothingPacked(sections: seq<Group>, max: nat)
    ensures Packing(sections, max, 0, Filling([], []), [], 0)
  {
    assert Flatten(sections[0..0]) == [];
  }

  lemma SectionPacks(sections: seq<Group>, max: nat, n: nat, f: Filling, origins: seq<Origin>, lo: nat)
    returns (origins': seq<Origin>, lo': nat)
    requires Solid(sections) && n < |sections| && Packing(sections, max, n, f, origins, lo)
    ensures Packing(sections, max, n + 1, AddSection(f, sections[n], max), origins', lo')
  {
    hide Greedy, BlocksLen, Chain, Flatten, MayShare;
    CurIsSolid(sections, max, n, f, origins, lo);
    var section := sections[n];
    var full := lo < n && BlocksLen(f.cur) + BlocksLen(section) + 1 > max;
    var room := if full then Filling(f.out + [f.cur], []) else f;
    if full {
      origins' := FlushRun(sections, max, n, f, origins, lo);
      lo' := n;
      assert sections[n..n] == [] && Flatten([]) == [] by { FlattenNothing(); }
    } else {
      origins', lo' := origins, lo;
    }
    if BlocksLen(section) <= max {
      RunGrows(sections, max, n, lo', room.cur);
    } else {
      assert lo' == n && room.cur == [];
      var pieces := LongSectionIsCut(sections, n, max);
      ChainConcat(sections, max, room.out, origins', Closed(Greedy(section, max)), pieces,
                  Place(0, 0), Place(n, 0), Place(n + 1, 0));
      origins', lo' := origins' + pieces, n + 1;
      assert sections[n + 1..n + 1] == [] && Flatten([]) == [] by { FlattenNothing(); }
    }
  }

  /** The group being filled is empty just when no section is in it. */
  lemma CurIsSolid(sections: seq<Group>, max: nat, n: nat, f: Filling, origins: seq<Origin>, lo: nat)
    requires Solid(sections) && n <= |sections| && Packing(sections, max, n, f, origins, lo)
    ensures lo == n ==> f.cur == [] && BlocksLen(f.cur) == 0
    ensures lo < n ==> f.cur != [] && BlocksLen(f.cur) > 0
  {
    hide Chain, BlocksLen, Flatten;
    if lo < n {
      assert forall k | 0 <= k < n - lo :: sections[lo..n][k] == sections[lo + k];
      FlattenIsSolid(sections[lo..n]);
    } else {
      assert sections[lo..n] == [];
      FlattenNothing();
      LenOfNothing();
    }
  }

  lemma FlushRun(sections: seq<Group>, max: nat, n: nat, f: Filling, origins: seq<Origin>, lo: nat)
    returns (origins': seq<Origin>)
    requires n <= |sections| && Packing(sections, max, n, f, origins, lo) && lo < n
    requires n < |sections| ==> BlocksLen(f.cur) + BlocksLen(sections[n]) + 1 > max
    ensures Chain(sections, max, f.out + [f.cur], origins', Place(0, 0), Place(n, 0))
  {
    hide Chain, BlocksLen, Flatten;
    assert GroupOk(sections, max, f.cur, Run(lo, n));
    ChainAppend(sections, max, f.out, origins, Place(0, 0), Place(lo, 0), f.cur, Run(lo, n));
    origins' := origins + [Run(lo, n)];
  }

  lemma RunGrows(sections: seq<Group>, max: nat, n: nat, lo: nat, cur: Group)
    requires lo <= n < |sections| && cur == Flatten(sections[lo..n]) && BlocksLen(sections[n]) <= max
    requires lo < n ==> MayShare(sections, max, Run(lo, n)) && BlocksLen(cur) + BlocksLen(sections[n]) + 1 <= max
    ensures cur + sections[n] == Flatten(sections[lo..n + 1]) && MayShare(sections, max, Run(lo, n + 1))
  {
    hide BlocksLen, Flatten;
    FlattenAppend(sections[lo..n], sections[n]);
    assert sections[lo..n] + [sections[n]] == sections[lo..n + 1];
    LenConcat(cur, sections[n]);
    if lo == n {
      assert sections[lo..n] == [];
      FlattenNothing();
      LenOfNothing();
    }
  }

  /** What the sections of blocks that are not empty are packed into. */
  lemma GroupedIsPacking(blocks: Group, max: nat)
    requires NoneEmpty(blocks)
    ensures IsPacking(Sections(blocks), max, Grouped(blocks, max))
  {
    hide Packed, Sections, Chain;
    var sections := Sections(blocks);
    SectionsAreSolid(blocks);
    var n := |sections|;
    var origins, lo := PackedPacks(sections, max, n);
    assert sections[..n] == sections;
    var f := Packed(sections, max);
    CurIsSolid(sections, max, n, f, origins, lo);
    if lo < n {
      origins := FlushRun(sections, max, n, f, origins, lo);
    } else {
      EmptyPackingIsChain(sections, max, n, f, origins, lo);
    }
  }

  lemma EmptyPackingIsChain(sections: seq<Group>, max: nat, n: nat, f: Filling, origins: seq<Origin>, lo: nat)
    requires n <= |sections| && Packing(sections, max, n, f, origins, lo) && lo == n
    ensures Chain(sections, max, f.out, origins, Place(0, 0), Place(n, 0))
  {
  }

  lemma SectionsAreSolid(blocks: Group)
    requires NoneEmpty(blocks)
    ensures Solid(Sections(blocks))
  {
    hide Sections, BlocksLen, Flatten;
    SectionsCutAtHeadings(blocks);
    var sections := Sections(blocks);
    forall k | 0 <= k < |sections| ensures BlocksLen(sections[k]) > 0 {
      SectionInFlatten(sections, k);
      LenIsPositive(sections[k]);
    }
  }

  lemma SectionInFlatten(sections: seq<Group>, k: nat)
    requires AreSections(sections) && k < |sections| && NoneEmpty(Flatten(sections))
    ensures sections[k] != [] && NoneEmpty(sections[k])
  {
    hide Flatten, NoneEmpty;
    assert IsSection(sections[k]);
    var before, after := sections[..k], sections[k + 1..];
    assert sections == (before + [sections[k]]) + after;
    FlattenConcat(before + [sections[k]], after);
    FlattenAppend(before, sections[k]);
    PartNotEmpty(Flatten(before), sections[k], Flatten(after));
  }

  lemma PartNotEmpty(a: Group, b: Group, c: Group)
    requires NoneEmpty(a + b + c)
    ensures NoneEmpty(b)
  {
    assert forall i | 0 <= i < |b| :: b[i] == (a + b + c)[|a| + i];
  }

  // ---------------------------------------------------------------------------------------------
  // There is no other packing
  // ---------------------------------------------------------------------------------------------

  /** A run that goes on after a place where it was full would be too long. */
  lemma RunEnds(sections: seq<Group>, max: nat, lo: nat, hi: nat, hi': nat)
    requires Solid(sections) && lo < hi < hi' <= |sections| && IsFull(sections, max, Run(lo, hi))
    ensures !MayShare(sections, max, Run(lo, hi'))
  {
    hide BlocksLen, Flatten;
    var a, s, rest := sections[lo..hi], sections[hi], sections[hi + 1..hi'];
    assert sections[lo..hi'] == (a + [s]) + rest;
    FlattenConcat(a + [s], rest);
    FlattenAppend(a, s);
    LenConcat(Flatten(a) + s, Flatten(rest));
    LenConcat(Flatten(a), s);
    assert a[0] == sections[lo] && forall k | 0 <= k < |a| :: a[k] == sections[lo + k];
    FlattenIsSolid(a);
    LenOfNothing();
    assert BlocksLen(s) > 0;
  }

  /** Where a group begins fixes where it ends. */
  lemma GroupIsFixed(sections: seq<Group>, max: nat, g: Group, o: Origin, g': Group, o': Origin)
    requires Solid(sections) && GroupOk(sections, max, g, o) && GroupOk(sections, max, g', o') && Begin(o) == Begin(o')
    ensures o == o' && g == g'
  {
    hide BlocksLen, Flatten, Takes;
    match (o, o')
    case (Run(lo, hi), Run(_, hi')) =>
      if hi < hi' {
        RunEnds(sections, max, lo, hi, hi');
      } else if hi' < hi {
        RunEnds(sections, max, lo, hi', hi);
      }
    case (Piece(k, lo, hi), Piece(_, _, hi')) =>
    case (Run(lo, hi), Piece(_, _, _)) =>
    case (Piece(_, _, _), Run(lo, hi)) =>
  }

  lemma {:induction false} ChainsAgree(sections: seq<Group>, max: nat, a: seq<Group>, oa: seq<Origin>, b: seq<Group>,
                                       ob: seq<Origin>, from: Place, to: Place, n: nat)
    requires Solid(sections) && n <= |a| && n <= |b|
    requires Chain(sections, max, a, oa, from, to) && Chain(sections, max, b, ob, from, to)
    ensures a[..n] == b[..n] && oa[..n] == ob[..n]
  {
    hide GroupOk, Solid;
    if n > 0 {
      ChainsAgree(sections, max, a, oa, b, ob, from, to, n - 1);
      assert n > 1 ==> oa[..n - 1][n - 2] == oa[n - 2] && ob[..n - 1][n - 2] == ob[n - 2];
      GroupIsFixed(sections, max, a[n - 1], oa[n - 1], b[n - 1], ob[n - 1]);
      assert a[..n] == a[..n - 1] + [a[n - 1]] && b[..n] == b[..n - 1] + [b[n - 1]];
      assert oa[..n] == oa[..n - 1] + [oa[n - 1]] && ob[..n] == ob[..n - 1] + [ob[n - 1]];
    }
  }

  lemma ChainsEndTogether(sections: seq<Group>, max: nat, a: seq<Group>, oa: seq<Origin>, b: seq<Group>,
                          ob: seq<Origin>)
    requires Solid(sections)
    requires Chain(sections, max, a, oa, Place(0, 0), Place(|sections|, 0))
    requires Chain(sections, max, b, ob, Place(0, 0), Place(|sections|, 0))
    ensures |a| >= |b|
  {
    var n := |a|;
    if n < |b| {
      hide GroupOk;
      ChainsAgree(sections, max, a, oa, b, ob, Place(0, 0), Place(|sections|, 0), n);
      assert n > 0 ==> oa[..n][n - 1] == oa[n - 1] && ob[..n][n - 1] == ob[n - 1];
      assert Begin(ob[n]) == Place(|sections|, 0);
      BeginsInside(sections, max, b[n], ob[n]);
    }
  }

  lemma BeginsInside(sections: seq<Group>, max: nat, g: Group, o: Origin)
    requires GroupOk(sections, max, g, o)
    ensures Begin(o).section < |sections|
  {
  }

  /** The groups are fixed by what may share a group and when a group is full. */
  lemma PackingIsUnique(sections: seq<Group>, max: nat, a: seq<Group>, b: seq<Group>)
    requires Solid(sections) && IsPacking(sections, max, a) && IsPacking(sections, max, b)
    ensures a == b
  {
    hide Solid, Chain;
    var oa :| Chain(sections, max, a, oa, Place(0, 0), Place(|sections|, 0));
    var ob :| Chain(sections, max, b, ob, Place(0, 0), Place(|sections|, 0));
    ChainsEndTogether(sections, max, a, oa, b, ob);
    ChainsEndTogether(sections, max, b, ob, a, oa);
    ChainsAgree(sections, max, a, oa, b, ob, Place(0, 0), Place(|sections|, 0), |a|);
    assert a[..|a|] == a && b[..|b|] == b;
  }
}
