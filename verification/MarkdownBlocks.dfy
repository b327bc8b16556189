/**
 Splitting Markdown into indivisible blocks, line by line.

 Which characters count as white space is a parameter (`space`); lines come without their ends.
 */
module MarkdownBlocks {
  import opened Common

  type Line = string

  datatype Kind = HeadingKind | ParaKind | CodeKind | TableKind

  datatype Block = Block(kind: Kind, text: string)

  // ---------------------------------------------------------------------------------------------
  // Lines
  // ---------------------------------------------------------------------------------------------

  function TrimEnd(s: string, space: char -> bool): (r: string)
    ensures |r| <= |s| && r == s[..|r|] && (r != [] ==> !space(r[|r| - 1]))
    ensures forall i | |r| <= i < |s| :: space(s[i])
  {
    if s != [] && space(s[|s| - 1]) then TrimEnd(s[..|s| - 1], space) else s
  }

  predicate IsBlank(line: Line, space: char -> bool) {
    TrimStart(line, space) == []
  }

  /** How often `c` is repeated at the start. */
  function RunLength(s: string, c: char): (n: nat)
    ensures n <= |s| && (forall i | 0 <= i < n :: s[i] == c) && (n < |s| ==> s[n] != c)
  {
    if s != [] && s[0] == c then 1 + RunLength(s[1..], c) else 0
  }

  /** One to six `#`, then a space or the end. */
  predicate IsHeadingLine(line: Line, space: char -> bool) {
    var trimmed := TrimStart(line, space);
    var hashes := RunLength(trimmed, '#');
    1 <= hashes <= 6 && (hashes == |trimmed| || trimmed[hashes] == ' ')
  }

  /** The fence character, if the line starts with at least three of it. */
  function FenceChar(line: Line, space: char -> bool): Option<char> {
    var trimmed := TrimStart(line, space);
    if trimmed == [] || (trimmed[0] != '`' && trimmed[0] != '~') then None
    else if RunLength(trimmed, trimmed[0]) >= 3 then Some(trimmed[0]) else None
  }

  function FenceLen(line: Line, c: char, space: char -> bool): nat {
    RunLength(TrimStart(line, space), c)
  }

  predicate IsTableLine(line: Line, space: char -> bool) {
    var trimmed := TrimStart(line, space);
    trimmed != [] && trimmed[0] == '|'
  }

  /** Part of a paragraph: none of the other things. */
  predicate IsProse(line: Line, space: char -> bool) {
    !IsBlank(line, space) && !IsHeadingLine(line, space) && FenceChar(line, space).None? && !IsTableLine(line, space)
  }

  /** `line` closes a fence opened with `open` times `c`. */
  predicate Closes(line: Line, c: char, open: nat, space: char -> bool) {
    FenceChar(line, space) == Some(c) && FenceLen(line, c, space) >= open
  }

  function Join(lines: seq<Line>): string {
    if lines == [] then ""
    else if |lines| == 1 then lines[0]
    else Join(lines[..|lines| - 1]) + "\n" + lines[|lines| - 1]
  }

  // ---------------------------------------------------------------------------------------------
  // Lines, told from their characters
  // ---------------------------------------------------------------------------------------------

  /** The white space in front ends at `a`. */
  ghost predicate IsIndent(line: Line, a: nat, space: char -> bool) {
    a <= |line| && (forall i | 0 <= i < a :: space(line[i])) && (a < |line| ==> !space(line[a]))
  }

  /** The characters from `a` on are `n` times `c`. */
  ghost predicate HasRun(line: Line, a: nat, n: nat, c: char) {
    a + n <= |line| && forall i | a <= i < a + n :: line[i] == c
  }

  lemma TrimmedAtIndent(line: Line, a: nat, space: char -> bool)
    requires IsIndent(line, a, space)
    ensures TrimStart(line, space) == line[a..]
  {
    var r := TrimStart(line, space);
    assert r != [] ==> r[0] == line[|line| - |r|];
  }

  /** A run counted at the indent, and what it says about shorter runs. */
  lemma RunAtIndent(line: Line, a: nat, c: char, n: nat)
    requires a <= |line|
    ensures RunLength(line[a..], c) == n <==> HasRun(line, a, n, c) && (a + n == |line| || line[a + n] != c)
    ensures RunLength(line[a..], c) >= n <==> HasRun(line, a, n, c)
  {
    var m := RunLength(line[a..], c);
    assert HasRun(line, a, m, c) && (a + m == |line| || line[a + m] != c) by {
      assert forall i | a <= i < |line| :: line[i] == line[a..][i - a];
    }
  }

  /** A heading: one to six `#` behind the indent, then a space or the end of the line. */
  lemma HeadingLineIff(line: Line, a: nat, space: char -> bool)
    requires IsIndent(line, a, space)
    ensures IsHeadingLine(line, space) <==>
              exists h: nat :: HasRun(line, a, h, '#') && 1 <= h <= 6 && (a + h == |line| || line[a + h] == ' ')
  {
    TrimmedAtIndent(line, a, space);
    var n := RunLength(line[a..], '#');
    RunAtIndent(line, a, '#', n);
    if h: nat :| HasRun(line, a, h, '#') && 1 <= h <= 6 && (a + h == |line| || line[a + h] == ' ') {
      RunAtIndent(line, a, '#', h);
    }
  }

  /** A fence: three backticks or three tildes behind the indent. */
  lemma FenceCharIff(line: Line, a: nat, c: char, space: char -> bool)
    requires IsIndent(line, a, space)
    ensures FenceChar(line, space) == Some(c) <==> (c == '`' || c == '~') && HasRun(line, a, 3, c)
  {
    TrimmedAtIndent(line, a, space);
    RunAtIndent(line, a, c, 3);
  }

  lemma FenceLenIff(line: Line, a: nat, c: char, n: nat, space: char -> bool)
    requires IsIndent(line, a, space)
    ensures FenceLen(line, c, space) == n <==> HasRun(line, a, n, c) && (a + n == |line| || line[a + n] != c)
  {
    TrimmedAtIndent(line, a, space);
    RunAtIndent(line, a, c, n);
  }

  /** A closing fence: at least three times, and at least as often as the opening one. */
  lemma ClosesIff(line: Line, a: nat, c: char, open: nat, space: char -> bool)
    requires IsIndent(line, a, space)
    ensures Closes(line, c, open, space) <==>
              (c == '`' || c == '~') && HasRun(line, a, 3, c) && HasRun(line, a, open, c)
  {
    FenceCharIff(line, a, c, space);
    TrimmedAtIndent(line, a, space);
    RunAtIndent(line, a, c, open);
  }

  lemma TableLineIff(line: Line, a: nat, space: char -> bool)
    requires IsIndent(line, a, space)
    ensures IsTableLine(line, space) <==> a < |line| && line[a] == '|'
  {
    TrimmedAtIndent(line, a, space);
  }

  lemma BlankIff(line: Line, a: nat, space: char -> bool)
    requires IsIndent(line, a, space)
    ensures IsBlank(line, space) <==> forall i | 0 <= i < |line| :: space(line[i])
  {
    TrimmedAtIndent(line, a, space);
  }

  /** What kind of block a line starts, from its characters: fences first, then headings, then tables. */
  lemma KindIff(line: Line, a: nat, space: char -> bool)
    requires IsIndent(line, a, space)
    ensures KindOf(line, space) ==
            if HasRun(line, a, 3, '`') || HasRun(line, a, 3, '~') then CodeKind
            else if exists h: nat :: HasRun(line, a, h, '#') && 1 <= h <= 6 && (a + h == |line| || line[a + h] == ' ')
            then HeadingKind
            else if a < |line| && line[a] == '|' then TableKind
            else ParaKind
    ensures IsProse(line, space) <==> a < |line| && KindOf(line, space) == ParaKind
  {
    hide FenceChar, IsHeadingLine, IsTableLine, IsBlank, HasRun;
    FenceCharIff(line, a, '`', space);
    FenceCharIff(line, a, '~', space);
    if FenceChar(line, space).Some? {
      FenceCharIff(line, a, FenceChar(line, space).value, space);
    }
    HeadingLineIff(line, a, space);
    TableLineIff(line, a, space);
    BlankIff(line, a, space);
  }

  // ---------------------------------------------------------------------------------------------
  // Text put together from lines
  // ---------------------------------------------------------------------------------------------

  ghost predicate StandsAt(text: string, piece: string, at: nat) {
    at + |piece| <= |text| && text[at..at + |piece|] == piece
  }

  ghost predicate NewlineAt(text: string, at: int) {
    0 <= at < |text| && text[at] == '\n'
  }

  /** Piece number `i` stands at `starts[i]`; one newline is between each two, and nothing else. */
  ghost predicate StandInOrder(text: string, pieces: seq<string>, starts: seq<nat>) {
    && |starts| == |pieces|
    && (forall i | 0 <= i < |pieces| :: StandsAt(text, pieces[i], starts[i]))
    && (forall i | 0 < i < |pieces| ::
          starts[i] == starts[i - 1] + |pieces[i - 1]| + 1 && NewlineAt(text, starts[i] - 1))
    && (pieces != [] ==> starts[0] == 0)
    && |text| == if pieces == [] then 0 else starts[|pieces| - 1] + |pieces[|pieces| - 1]|
  }

  /** `text` is the pieces, each two separated by one newline. */
  ghost predicate IsJoined(text: string, pieces: seq<string>) {
    exists starts :: StandInOrder(text, pieces, starts)
  }

  /** There is one such text, and it is what joining gives. */
  lemma {:induction false} JoinedIff(text: string, pieces: seq<string>)
    ensures IsJoined(text, pieces) <==> text == Join(pieces)
    decreases |pieces|
  {
    hide StandInOrder;
    if |pieces| > 1 {
      var n := |pieces| - 1;
      assert pieces[..n] + [pieces[n]] == pieces;
      JoinedIff(Join(pieces[..n]), pieces[..n]);
      if text == Join(pieces) {
        var starts :| StandInOrder(Join(pieces[..n]), pieces[..n], starts);
        AppendPiece(Join(pieces[..n]), pieces[..n], starts, pieces[n]);
      }
      if IsJoined(text, pieces) {
        var starts :| StandInOrder(text, pieces, starts);
        PieceForEach(text, pieces, starts);
        DropPiece(text, pieces, starts);
        JoinedIff(text[..starts[n] - 1], pieces[..n]);
      }
    } else {
      JoinOne(text, pieces);
    }
  }

  lemma PieceForEach(text: string, pieces: seq<string>, starts: seq<nat>)
    requires StandInOrder(text, pieces, starts)
    ensures |starts| == |pieces|
  {
  }

  lemma JoinOne(text: string, pieces: seq<string>)
    requires |pieces| <= 1
    ensures IsJoined(text, pieces) <==> text == Join(pieces)
  {
    if pieces == [] {
      assert text == "" ==> StandInOrder(text, pieces, []);
    } else {
      assert text == pieces[0] ==> StandInOrder(text, pieces, [0]);
    }
  }

  lemma StandsInLonger(text: string, more: string, piece: string, at: nat)
    requires StandsAt(text, piece, at)
    ensures StandsAt(text + more, piece, at)
  {
    assert (text + more)[at..at + |piece|] == text[at..at + |piece|];
  }

  lemma StandsBehind(text: string, piece: string)
    ensures StandsAt(text + piece, piece, |text|)
  {
  }

  lemma AppendPiece(text: string, pieces: seq<string>, starts: seq<nat>, piece: string)
    requires StandInOrder(text, pieces, starts) && pieces != []
    ensures StandInOrder(text + "\n" + piece, pieces + [piece], starts + [|text| + 1])
  {
    hide StandsAt;
    var n := |pieces|;
    var text', pieces', starts' := text + "\n" + piece, pieces + [piece], starts + [|text| + 1];
    assert text' == text + ("\n" + piece);
    forall i | 0 <= i < |pieces'| ensures StandsAt(text', pieces'[i], starts'[i]) {
      if i < n {
        StandsInLonger(text, "\n" + piece, pieces[i], starts[i]);
      } else {
        StandsBehind(text + "\n", piece);
      }
    }
    forall i | 0 < i < |pieces'| ensures starts'[i] == starts'[i - 1] + |pieces'[i - 1]| + 1
      ensures NewlineAt(text', starts'[i] - 1)
    {
      if i < n {
        assert starts[i] == starts[i - 1] + |pieces[i - 1]| + 1 && NewlineAt(text, starts[i] - 1);
      } else {
        assert starts[n - 1] + |pieces[n - 1]| == |text|;
      }
    }
  }

  lemma DropPiece(text: string, pieces: seq<string>, starts: seq<nat>)
    requires StandInOrder(text, pieces, starts) && |pieces| > 1
    ensures var n := |pieces| - 1;
            && 0 < starts[n] <= |text|
            && StandInOrder(text[..starts[n] - 1], pieces[..n], starts[..n])
            && text == text[..starts[n] - 1] + "\n" + pieces[n]
  {
    var n := |pieces| - 1;
    StartsAscend(text, pieces, starts, n);
    assert StandsAt(text, pieces[n], starts[n]) && NewlineAt(text, starts[n] - 1);
    forall i | 0 <= i < n ensures StandsAt(text[..starts[n] - 1], pieces[i], starts[i]) {
      assert StandsAt(text, pieces[i], starts[i]);
      assert text[..starts[n] - 1][starts[i]..starts[i] + |pieces[i]|] == text[starts[i]..starts[i] + |pieces[i]|];
    }
    forall i | 0 < i < n ensures NewlineAt(text[..starts[n] - 1], starts[i] - 1) {
      assert NewlineAt(text, starts[i] - 1);
    }
  }

  lemma {:induction false} StartsAscend(text: string, pieces: seq<string>, starts: seq<nat>, n: nat)
    requires StandInOrder(text, pieces, starts) && n < |pieces|
    ensures forall i | 0 <= i < n :: starts[i] + |pieces[i]| < starts[n]
  {
    if n > 0 {
      StartsAscend(text, pieces, starts, n - 1);
    }
  }

  /** The pieces between the newlines of a text. */
  ghost function Cut(text: string): (r: seq<string>)
    ensures r != []
  {
    if text == "" then [""]
    else
      var n := |text| - 1;
      var front := Cut(text[..n]);
      if text[n] == '\n' then front + [""] else front[..|front| - 1] + [front[|front| - 1] + [text[n]]]
  }

  /** The last piece of a text goes on. */
  ghost function Extended(pieces: seq<string>, more: string): seq<string>
    requires pieces != []
  {
    pieces[..|pieces| - 1] + [pieces[|pieces| - 1] + more]
  }

  lemma CutAppend(text: string, c: char)
    requires c != '\n'
    ensures Cut(text + [c]) == Extended(Cut(text), [c])
  {
    assert (text + [c])[..|text|] == text;
  }

  lemma ExtendedTwice(pieces: seq<string>, more: string, last: string)
    requires pieces != []
    ensures Extended(Extended(pieces, more), last) == Extended(pieces, more + last)
    ensures Extended(pieces, "") == pieces
  {
    var n := |pieces| - 1;
    assert pieces[n] + more + last == pieces[n] + (more + last) && pieces[n] + "" == pieces[n];
  }

  lemma {:induction false} CutLine(text: string, line: Line)
    requires '\n' !in line
    ensures Cut(text + line) == Extended(Cut(text), line)
    decreases |line|
  {
    hide Cut, Extended;
    if line == "" {
      assert text + line == text;
      ExtendedTwice(Cut(text), "", "");
    } else {
      var front, c := line[..|line| - 1], line[|line| - 1];
      assert line == front + [c] && text + line == (text + front) + [c];
      CutLine(text, front);
      CutAppend(text + front, c);
      ExtendedTwice(Cut(text), front, [c]);
    }
  }

  lemma CutNewline(text: string)
    ensures Cut(text + "\n") == Cut(text) + [""]
  {
    assert (text + "\n")[..|text|] == text;
  }

  /** Lines that hold no newline are what cutting their joined text gives back. */
  lemma {:induction false} CutUndoesJoin(lines: seq<Line>)
    requires lines != [] && forall i | 0 <= i < |lines| :: '\n' !in lines[i]
    ensures Cut(Join(lines)) == lines
  {
    hide Cut;
    var n := |lines| - 1;
    if n == 0 {
      CutLine("", lines[0]);
      CutEmpty();
      assert "" + lines[0] == Join(lines);
    } else {
      var front := Join(lines[..n]);
      CutUndoesJoin(lines[..n]);
      CutNewline(front);
      CutLine(front + "\n", lines[n]);
      assert lines[..n] + [""] == Cut(front + "\n") && "" + lines[n] == lines[n];
      assert Extended(lines[..n] + [""], lines[n]) == lines;
    }
  }

  lemma CutEmpty()
    ensures Cut("") == [""]
  {
  }

  // ---------------------------------------------------------------------------------------------
  // What a parse is
  // ---------------------------------------------------------------------------------------------

  /** A block made of the lines `lo..hi`. */
  datatype Span = Span(kind: Kind, lo: nat, hi: nat)

  function BlockOf(lines: seq<Line>, span: Span, space: char -> bool): Block
    requires span.lo < span.hi <= |lines|
  {
    Block(span.kind, if span.kind.HeadingKind? then TrimEnd(lines[span.lo], space) else Join(lines[span.lo..span.hi]))
  }

  /** The kind of block a non-blank line starts: fences before headings before tables. */
  function KindOf(line: Line, space: char -> bool): Kind {
    if FenceChar(line, space).Some? then CodeKind
    else if IsHeadingLine(line, space) then HeadingKind
    else if IsTableLine(line, space) then TableKind
    else ParaKind
  }

  /** Line `k` can be part of the block started at `lo`, seen from inside: a code block goes on up to
      its closing fence, a table over table lines, a paragraph over prose, a heading is one line. */
  ghost predicate GoesOn(lines: seq<Line>, lo: nat, k: nat, space: char -> bool)
    requires lo < |lines| && lo < k < |lines|
  {
    match KindOf(lines[lo], space)
    case CodeKind =>
      var c := FenceChar(lines[lo], space).value;
      k == lo + 1 || !Closes(lines[k - 1], c, FenceLen(lines[lo], c, space), space)
    case HeadingKind => false
    case TableKind => IsTableLine(lines[k], space)
    case ParaKind => IsProse(lines[k], space)
  }

  /** A block of the right kind, as long as it can be. */
  ghost predicate SpanOk(lines: seq<Line>, span: Span, space: char -> bool) {
    && span.lo < span.hi <= |lines|
    && !IsBlank(lines[span.lo], space)
    && span.kind == KindOf(lines[span.lo], space)
    && (forall k | span.lo < k < span.hi :: GoesOn(lines, span.lo, k, space))
    && (span.hi < |lines| ==> !GoesOn(lines, span.lo, span.hi, space))
  }

  ghost predicate BlankBetween(lines: seq<Line>, from: nat, to: nat, space: char -> bool) {
    from <= to <= |lines| && forall k | from <= k < to :: IsBlank(lines[k], space)
  }

  /** Where the `i`-th block's search starts: after the one before it. */
  function After(spans: seq<Span>, i: nat): nat
    requires i <= |spans|
  {
    if i == 0 then 0 else spans[i - 1].hi
  }

  /** Between two blocks there are only blank lines. */
  ghost predicate GapOk(lines: seq<Line>, spans: seq<Span>, i: nat, space: char -> bool)
    requires i < |spans|
  {
    BlankBetween(lines, After(spans, i), spans[i].lo, space)
  }

  /** The lines up to `end`, cut into blocks in order, with only blank lines left out. */
  ghost predicate ParsedTo(lines: seq<Line>, spans: seq<Span>, end: nat, space: char -> bool) {
    && (forall i | 0 <= i < |spans| :: SpanOk(lines, spans[i], space))
    && (forall i | 0 <= i < |spans| :: GapOk(lines, spans, i, space))
    && BlankBetween(lines, After(spans, |spans|), end, space)
  }

  ghost predicate IsParse(lines: seq<Line>, spans: seq<Span>, space: char -> bool) {
    ParsedTo(lines, spans, |lines|, space)
  }

  /** The first non-blank line and the rules fix the next block. */
  lemma NextSpanIsUnique(lines: seq<Line>, from: nat, x: Span, y: Span, space: char -> bool)
    requires SpanOk(lines, x, space) && SpanOk(lines, y, space)
    requires BlankBetween(lines, from, x.lo, space) && BlankBetween(lines, from, y.lo, space)
    ensures x == y
  {
    hide GoesOn, KindOf, IsBlank;
    assert x.lo == y.lo;
  }

  lemma {:induction false} ParsesAgree(lines: seq<Line>, a: seq<Span>, b: seq<Span>, k: nat, space: char -> bool)
    requires IsParse(lines, a, space) && IsParse(lines, b, space) && k <= |a| && k <= |b|
    ensures a[..k] == b[..k]
  {
    hide GoesOn, KindOf, IsBlank;
    if k > 0 {
      ParsesAgree(lines, a, b, k - 1, space);
      assert After(a, k - 1) == After(b, k - 1) by {
        assert k > 1 ==> a[..k - 1][k - 2] == a[k - 2] && b[..k - 1][k - 2] == b[k - 2];
      }
      assert GapOk(lines, a, k - 1, space) && GapOk(lines, b, k - 1, space);
      NextSpanIsUnique(lines, After(a, k - 1), a[k - 1], b[k - 1], space);
      assert a[..k] == a[..k - 1] + [a[k - 1]] && b[..k] == b[..k - 1] + [b[k - 1]];
    }
  }

  /** There is only one way to parse. */
  lemma ParseIsUnique(lines: seq<Line>, a: seq<Span>, b: seq<Span>, space: char -> bool)
    requires IsParse(lines, a, space) && IsParse(lines, b, space)
    ensures a == b
  {
    hide GoesOn, KindOf, IsBlank;
    var k := if |a| < |b| then |a| else |b|;
    ParsesAgree(lines, a, b, k, space);
    SameLength(lines, a, b, space);
    SameLength(lines, b, a, space);
    assert a[..|a|] == a && b[..|b|] == b;
  }

  lemma SameLength(lines: seq<Line>, a: seq<Span>, b: seq<Span>, space: char -> bool)
    requires IsParse(lines, a, space) && IsParse(lines, b, space)
    requires a[..if |a| < |b| then |a| else |b|] == b[..if |a| < |b| then |a| else |b|]
    ensures |a| >= |b|
  {
    hide GoesOn, KindOf, IsBlank;
    if |a| < |b| {
      EndsMeet(a, b);
      LeavesRest(lines, b, |a|, space);
    }
  }

  lemma EndsMeet(a: seq<Span>, b: seq<Span>)
    requires |a| <= |b| && a == b[..|a|]
    ensures After(a, |a|) == After(b, |a|)
  {
  }

  /** Before each block of a parse there is a non-blank line left. */
  lemma LeavesRest(lines: seq<Line>, spans: seq<Span>, i: nat, space: char -> bool)
    requires IsParse(lines, spans, space) && i < |spans|
    ensures !BlankBetween(lines, After(spans, i), |lines|, space)
  {
    hide GoesOn, KindOf, IsBlank;
    assert GapOk(lines, spans, i, space) && SpanOk(lines, spans[i], space);
  }

  /** Every non-blank line is in exactly one block. */
  lemma NonBlankLinesAreKept(lines: seq<Line>, spans: seq<Span>, k: nat, space: char -> bool)
    requires IsParse(lines, spans, space) && k < |lines| && !IsBlank(lines[k], space)
    ensures exists i :: 0 <= i < |spans| && spans[i].lo <= k < spans[i].hi
    ensures forall i, j | 0 <= i < |spans| && 0 <= j < |spans| ::
              spans[i].lo <= k < spans[i].hi && spans[j].lo <= k < spans[j].hi ==> i == j
  {
    hide ParsedTo, IsBlank;
    SpansAscend(lines, spans, |lines|, |spans|, space);
    if forall i | 0 <= i < |spans| :: !(spans[i].lo <= k < spans[i].hi) {
      NoSpanBefore(lines, spans, 0, k, space);
    }
  }

  lemma {:induction false} SpansAscend(lines: seq<Line>, spans: seq<Span>, end: nat, n: nat, space: char -> bool)
    requires ParsedTo(lines, spans, end, space) && n <= |spans|
    ensures forall i, j | 0 <= i < j < n :: spans[i].hi <= spans[j].lo
  {
    hide GoesOn, KindOf, IsBlank;
    if n > 1 {
      SpansAscend(lines, spans, end, n - 1, space);
      assert GapOk(lines, spans, n - 1, space) && After(spans, n - 1) == spans[n - 2].hi;
      assert SpanOk(lines, spans[n - 1], space) && SpanOk(lines, spans[n - 2], space);
    }
  }

  lemma {:induction false} NoSpanBefore(lines: seq<Line>, spans: seq<Span>, n: nat, k: nat, space: char -> bool)
    requires IsParse(lines, spans, space) && n <= |spans| && k < |lines| && !IsBlank(lines[k], space)
    requires forall i | 0 <= i < |spans| :: !(spans[i].lo <= k < spans[i].hi)
    ensures k < After(spans, n)
    decreases |spans| - n
  {
    hide GoesOn, KindOf, IsBlank;
    if n == |spans| {
      assert BlankBetween(lines, After(spans, n), |lines|, space);
    } else {
      NoSpanBefore(lines, spans, n + 1, k, space);
      assert GapOk(lines, spans, n, space);
    }
  }

  /** A code block is cut nowhere: it ends at the first closing fence, or with the text. */
  lemma FencesAreWhole(lines: seq<Line>, spans: seq<Span>, i: nat, space: char -> bool)
    requires IsParse(lines, spans, space) && i < |spans| && spans[i].kind == CodeKind
    ensures spans[i].hi <= |lines| && FenceChar(lines[spans[i].lo], space).Some?
    ensures var first := lines[spans[i].lo];
            var c := FenceChar(first, space).value;
            var open := FenceLen(first, c, space);
            && (forall k | spans[i].lo < k < spans[i].hi - 1 :: !Closes(lines[k], c, open, space))
            && (spans[i].hi == |lines| ||
                (spans[i].hi - 1 > spans[i].lo && Closes(lines[spans[i].hi - 1], c, open, space)))
  {
    hide FenceChar, FenceLen, IsHeadingLine, IsTableLine, IsBlank, GapOk, Closes;
    var span := spans[i];
    assert SpanOk(lines, span, space);
    var c := FenceChar(lines[span.lo], space).value;
    forall k | span.lo < k < span.hi - 1
      ensures !Closes(lines[k], c, FenceLen(lines[span.lo], c, space), space)
    {
      assert GoesOn(lines, span.lo, k + 1, space);
    }
  }

  // ---------------------------------------------------------------------------------------------
  // The parser
  // ---------------------------------------------------------------------------------------------

  ghost predicate AreBlocksOf(lines: seq<Line>, blocks: seq<Block>, spans: seq<Span>, space: char -> bool) {
    && |blocks| == |spans|
    && forall i | 0 <= i < |spans| ::
         spans[i].lo < spans[i].hi <= |lines| && IsBlockOf(lines, blocks[i], spans[i], space)
  }

  /** `t` is `s` up to its last character that is not white space. */
  ghost predicate IsTrimmed(t: string, s: string, space: char -> bool) {
    && t <= s
    && (t != "" ==> !space(t[|t| - 1]))
    && forall i | |t| <= i < |s| :: space(s[i])
  }

  /** What the lines of a span make: a heading is its line without white space at the end, any other block its
      lines, one newline between each two. */
  ghost predicate IsBlockOf(lines: seq<Line>, block: Block, span: Span, space: char -> bool)
    requires span.lo < span.hi <= |lines|
  {
    && block.kind == span.kind
    && (span.kind == HeadingKind ==> IsTrimmed(block.text, lines[span.lo], space))
    && (span.kind != HeadingKind ==> IsJoined(block.text, lines[span.lo..span.hi]))
  }

  lemma TrimmedIff(t: string, s: string, space: char -> bool)
    ensures IsTrimmed(t, s, space) <==> t == TrimEnd(s, space)
  {
  }

  lemma BlockOfIff(lines: seq<Line>, block: Block, span: Span, space: char -> bool)
    requires span.lo < span.hi <= |lines|
    ensures IsBlockOf(lines, block, span, space) <==> block == BlockOf(lines, span, space)
  {
    hide IsTrimmed, IsJoined;
    TrimmedIff(block.text, lines[span.lo], space);
    JoinedIff(block.text, lines[span.lo..span.hi]);
  }

  /** Cutting a block that is not a heading at its newlines gives back its lines. */
  lemma BlocksHoldTheirLines(lines: seq<Line>, blocks: seq<Block>, spans: seq<Span>, i: nat, space: char -> bool)
    requires IsParse(lines, spans, space) && AreBlocksOf(lines, blocks, spans, space) && i < |spans|
    requires forall k | 0 <= k < |lines| :: '\n' !in lines[k]
    ensures spans[i].lo < spans[i].hi <= |lines|
    ensures blocks[i].kind != HeadingKind ==> Cut(blocks[i].text) == lines[spans[i].lo..spans[i].hi]
    ensures blocks[i].kind == HeadingKind ==>
              spans[i].hi == spans[i].lo + 1 && IsTrimmed(blocks[i].text, lines[spans[i].lo], space)
  {
    hide IsTrimmed, IsJoined, IsBlank, KindOf;
    var span := spans[i];
    assert SpanOk(lines, span, space);
    var part := lines[span.lo..span.hi];
    JoinedIff(blocks[i].text, part);
    assert forall k | 0 <= k < |part| :: part[k] == lines[span.lo + k];
    CutUndoesJoin(part);
    assert span.hi > span.lo + 1 ==> GoesOn(lines, span.lo, span.lo + 1, space);
  }

  lemma AppendSpan(lines: seq<Line>, blocks: seq<Block>, spans: seq<Span>, span: Span, space: char -> bool)
    requires ParsedTo(lines, spans, span.lo, space) && SpanOk(lines, span, space) &&
            AreBlocksOf(lines, blocks, spans, space)
    ensures ParsedTo(lines, spans + [span], span.hi, space)
    ensures AreBlocksOf(lines, blocks + [BlockOf(lines, span, space)], spans + [span], space)
  {
    hide GoesOn, KindOf, IsBlank, IsBlockOf;
    BlockOfIff(lines, BlockOf(lines, span, space), span, space);
    var longer := spans + [span];
    forall i | 0 <= i < |longer| ensures GapOk(lines, longer, i, space) {
      if i < |spans| {
        assert GapOk(lines, spans, i, space) && longer[i] == spans[i] && After(longer, i) == After(spans, i);
      }
    }
  }

  lemma SkipBlank(lines: seq<Line>, spans: seq<Span>, i: nat, space: char -> bool)
    requires ParsedTo(lines, spans, i, space) && i < |lines| && IsBlank(lines[i], space)
    ensures ParsedTo(lines, spans, i + 1, space)
  {
  }

  /** The blocks of a parse of the lines. */
  ghost predicate IsBlocksOf(lines: seq<Line>, blocks: seq<Block>, space: char -> bool) {
    exists spans :: IsParse(lines, spans, space) && AreBlocksOf(lines, blocks, spans, space)
  }

  lemma BlocksAreUnique(lines: seq<Line>, a: seq<Block>, b: seq<Block>, space: char -> bool)
    requires IsBlocksOf(lines, a, space) && IsBlocksOf(lines, b, space)
    ensures a == b
  {
    hide IsParse, BlockOf, IsBlockOf;
    var spans :| IsParse(lines, spans, space) && AreBlocksOf(lines, a, spans, space);
    var others :| IsParse(lines, others, space) && AreBlocksOf(lines, b, others, space);
    ParseIsUnique(lines, spans, others, space);
    forall i | 0 <= i < |spans| ensures a[i] == b[i] {
      BlockOfIff(lines, a[i], spans[i], space);
      BlockOfIff(lines, b[i], spans[i], space);
    }
  }

  /** Split lines into blocks: the one parse there is. */
  method ParseBlocks(lines: seq<Line>, space: char -> bool) returns (blocks: seq<Block>)
    ensures IsBlocksOf(lines, blocks, space)
  {
    hide ParsedTo, AreBlocksOf, GoesOn, IsBlank, FenceChar, IsHeadingLine, IsTableLine;
    blocks := [];
    ghost var spans: seq<Span> := [];
    var i: nat := 0;
    NothingParsed(lines, space);
    while i < |lines|
      invariant i <= |lines|
      invariant ParsedTo(lines, spans, i, space) && AreBlocksOf(lines, blocks, spans, space)
    {
      var line := lines[i];
      if IsBlank(line, space) {
        SkipBlank(lines, spans, i, space);
        i := i + 1;
      } else {
        var j: nat := i + 1;
        var block;
        if FenceChar(line, space).Some? {
          j := EndOfCode(lines, i, space);
          block := Block(CodeKind, Join(lines[i..j]));
        } else if IsHeadingLine(line, space) {
          HeadingIsOneLine(lines, i, space);
          block := Block(HeadingKind, TrimEnd(line, space));
        } else if IsTableLine(line, space) {
          j := EndOfTable(lines, i, space);
          block := Block(TableKind, Join(lines[i..j]));
        } else {
          j := EndOfPara(lines, i, space);
          block := Block(ParaKind, Join(lines[i..j]));
        }
        ghost var span := Span(KindOf(line, space), i, j);
        AppendSpan(lines, blocks, spans, span, space);
        blocks, spans := blocks + [block], spans + [span];
        i := j;
      }
    }
  }

  lemma HeadingIsOneLine(lines: seq<Line>, i: nat, space: char -> bool)
    requires i < |lines| && KindOf(lines[i], space) == HeadingKind
    ensures i + 1 < |lines| ==> !GoesOn(lines, i, i + 1, space)
  {
    hide KindOf;
  }

  lemma NothingParsed(lines: seq<Line>, space: char -> bool)
    ensures ParsedTo(lines, [], 0, space) && AreBlocksOf(lines, [], [], space)
  {
  }

  /** The line after the closing fence, or the end of the text. */
  method EndOfCode(lines: seq<Line>, i: nat, space: char -> bool) returns (j: nat)
    requires i < |lines| && FenceChar(lines[i], space).Some?
    ensures i < j <= |lines| && (forall k | i < k < j :: GoesOn(lines, i, k, space))
    ensures j < |lines| ==> !GoesOn(lines, i, j, space)
  {
    hide FenceChar, FenceLen, IsHeadingLine, IsTableLine;
    var c := FenceChar(lines[i], space).value;
    var open := FenceLen(lines[i], c, space);
    j := i + 1;
    while j < |lines|
      invariant i < j <= |lines| && forall k | i < k < j :: !Closes(lines[k], c, open, space)
    {
      if FenceChar(lines[j], space) == Some(c) && FenceLen(lines[j], c, space) >= open {
        j := j + 1;
        break;
      }
      j := j + 1;
    }
  }

  method EndOfTable(lines: seq<Line>, i: nat, space: char -> bool) returns (j: nat)
    requires i < |lines| && KindOf(lines[i], space) == TableKind
    ensures i < j <= |lines| && (forall k | i < k < j :: GoesOn(lines, i, k, space))
    ensures j < |lines| ==> !GoesOn(lines, i, j, space)
  {
    hide KindOf, IsTableLine;
    j := i + 1;
    while j < |lines| && IsTableLine(lines[j], space)
      invariant i < j <= |lines| && forall k | i < k < j :: IsTableLine(lines[k], space)
    {
      j := j + 1;
    }
  }

  method EndOfPara(lines: seq<Line>, i: nat, space: char -> bool) returns (j: nat)
    requires i < |lines| && KindOf(lines[i], space) == ParaKind
    ensures i < j <= |lines| && (forall k | i < k < j :: GoesOn(lines, i, k, space))
    ensures j < |lines| ==> !GoesOn(lines, i, j, space)
  {
    hide KindOf, IsBlank, IsHeadingLine, FenceChar, IsTableLine;
    j := i + 1;
    while j < |lines|
      invariant i < j <= |lines| && forall k | i < k < j :: IsProse(lines[k], space)
    {
      var l := lines[j];
      if IsBlank(l, space) || IsHeadingLine(l, space) || FenceChar(l, space).Some? || IsTableLine(l, space) {
        break;
      }
      j := j + 1;
    }
  }
}
