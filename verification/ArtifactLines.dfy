/**
 Artifact declarations in tool output: lines that start with a marker and carry a JSON object.  White
 space and the JSON codec are parameters.
 */
module ArtifactLines {
  import opened Common

  const MARKER := "@@PECO_ARTIFACT"

  datatype Codec<!D> = Codec(space: char -> bool, encode: D -> string, decode: string -> Option<D>)

  /** Encodings are one line that starts with a brace, and decode back with the newline still on. */
  ghost predicate Lawful<D(!new)>(codec: Codec<D>) {
    && codec.space(' ') && !codec.space('{') && !codec.space('@')
    && forall d: D :: LawfulFor(codec, d)
  }

  predicate LawfulFor<D(==)>(codec: Codec<D>, d: D) {
    '\n' !in codec.encode(d) && "{" <= codec.encode(d) && codec.decode(codec.encode(d) + "\n") == Some(d)
  }

  // ---------------------------------------------------------------------------------------------
  // Lines, each with its newline
  // ---------------------------------------------------------------------------------------------

  predicate EndsLine(s: string) {
    s != "" && s[|s| - 1] == '\n'
  }

  function AddChar(lines: seq<string>, c: char): seq<string> {
    if lines == [] || EndsLine(lines[|lines| - 1]) then lines + [[c]]
    else lines[..|lines| - 1] + [lines[|lines| - 1] + [c]]
  }

  function SplitInclusive(s: string): seq<string> {
    if s == "" then [] else AddChar(SplitInclusive(s[..|s| - 1]), s[|s| - 1])
  }

  /** Not empty, with a newline at most at its end. */
  predicate IsLine(line: string) {
    line != "" && forall i | 0 <= i < |line| - 1 :: line[i] != '\n'
  }

  /** Lines of which only the last may lack its newline. */
  predicate WellCut(lines: seq<string>) {
    && (forall k | 0 <= k < |lines| :: IsLine(lines[k]))
    && (forall k | 0 <= k < |lines| - 1 :: EndsLine(lines[k]))
  }

  lemma SplitAppend(s: string, c: char)
    ensures SplitInclusive(s + [c]) == AddChar(SplitInclusive(s), c)
  {
    assert (s + [c])[..|s|] == s;
  }

  lemma ConcatAppend(lines: seq<string>, line: string)
    ensures Concat(lines + [line]) == Concat(lines) + line
  {
    assert (lines + [line])[..|lines|] == lines;
  }

  lemma AddCharKeeps(lines: seq<string>, c: char)
    requires WellCut(lines)
    ensures WellCut(AddChar(lines, c)) && Concat(AddChar(lines, c)) == Concat(lines) + [c]
  {
    hide WellCut, Concat;
    if lines == [] || EndsLine(lines[|lines| - 1]) {
      ConcatAppend(lines, [c]);
      StartLine(lines, c);
    } else {
      var front, last := lines[..|lines| - 1], lines[|lines| - 1];
      ConcatAppend(front, last + [c]);
      ConcatAppend(front, last);
      assert front + [last] == lines;
      GrowLine(lines, c);
    }
  }

  lemma StartLine(lines: seq<string>, c: char)
    requires WellCut(lines) && (lines == [] || EndsLine(lines[|lines| - 1]))
    ensures WellCut(lines + [[c]])
  {
    hide EndsLine;
  }

  lemma GrowLine(lines: seq<string>, c: char)
    requires WellCut(lines) && lines != [] && !EndsLine(lines[|lines| - 1])
    ensures WellCut(lines[..|lines| - 1] + [lines[|lines| - 1] + [c]])
  {
    hide IsLine, EndsLine;
    LongerLine(lines[|lines| - 1], c);
  }

  lemma LongerLine(line: string, c: char)
    requires IsLine(line) && !EndsLine(line)
    ensures IsLine(line + [c])
  {
  }

  lemma {:induction false} SplitLosesNothing(s: string)
    ensures WellCut(SplitInclusive(s)) && Concat(SplitInclusive(s)) == s
  {
    hide WellCut, AddChar;
    if s != "" {
      SplitLosesNothing(s[..|s| - 1]);
      AddCharKeeps(SplitInclusive(s[..|s| - 1]), s[|s| - 1]);
      assert s == s[..|s| - 1] + [s[|s| - 1]];
    } else {
      assert WellCut([]) by { NothingIsWellCut(); }
    }
  }

  lemma NothingIsWellCut()
    ensures WellCut([])
  {
  }

  /** At a line boundary, a text can be cut in two before splitting. */
  lemma {:induction false} SplitConcat(a: string, b: string)
    requires a == "" || EndsLine(a)
    ensures SplitInclusive(a + b) == SplitInclusive(a) + SplitInclusive(b)
  {
    hide SplitInclusive, AddChar;
    if b == "" {
      assert a + b == a && SplitInclusive("") == [] by { SplitNothing(); }
    } else {
      var b0, c := b[..|b| - 1], b[|b| - 1];
      SplitConcat(a, b0);
      assert a + b == (a + b0) + [c] && b == b0 + [c];
      SplitAppend(a + b0, c);
      SplitAppend(b0, c);
      LastEndsLine(a);
      AddCharAfter(SplitInclusive(a), SplitInclusive(b0), c);
    }
  }

  lemma SplitNothing()
    ensures SplitInclusive("") == []
  {
  }

  lemma AddCharAfter(a: seq<string>, b: seq<string>, c: char)
    requires a == [] || EndsLine(a[|a| - 1])
    ensures AddChar(a + b, c) == a + AddChar(b, c)
  {
    hide EndsLine;
    if b == [] {
      assert a + b == a;
    } else {
      var n := |b| - 1;
      assert (a + b)[..|a| + n] == a + b[..n] && (a + b)[|a| + n] == b[n];
    }
  }

  lemma LastEndsLine(a: string)
    requires a == "" || EndsLine(a)
    ensures SplitInclusive(a) == [] || EndsLine(SplitInclusive(a)[|SplitInclusive(a)| - 1])
  {
    SplitLosesNothing(a);
  }

  /** A single line is not split. */
  lemma {:induction false} SplitOne(line: string)
    requires IsLine(line)
    ensures SplitInclusive(line) == [line]
  {
    if |line| > 1 {
      SplitOne(line[..|line| - 1]);
    } else {
      SplitNothing();
    }
    assert line == line[..|line| - 1] + [line[|line| - 1]];
  }

  lemma {:induction false} SplitOfConcat(lines: seq<string>)
    requires WellCut(lines)
    ensures SplitInclusive(Concat(lines)) == lines
  {
    hide SplitInclusive, IsLine;
    if lines == [] {
      SplitNothing();
    } else {
      var n := |lines| - 1;
      SplitOfConcat(lines[..n]);
      ConcatEnds(lines, n);
      SplitConcat(Concat(lines[..n]), lines[n]);
      SplitOne(lines[n]);
    }
  }

  lemma ConcatEnds(lines: seq<string>, n: nat)
    requires n <= |lines| && WellCut(lines) && n < |lines|
    ensures Concat(lines[..n]) == "" || EndsLine(Concat(lines[..n]))
  {
    if n > 0 {
      assert EndsLine(lines[..n][n - 1]);
    }
  }

  // ---------------------------------------------------------------------------------------------
  // Stripping
  // ---------------------------------------------------------------------------------------------

  /** What follows the marker, if the line is a declaration. */
  function Payload(line: string, space: char -> bool): Option<string> {
    var trimmed := TrimStart(line, space);
    if !(MARKER <= trimmed) then None
    else
      var rest := TrimStart(trimmed[|MARKER|..], space);
      if rest == "" || rest[0] == '{' then Some(rest) else None
  }

  function Kept(lines: seq<string>, space: char -> bool): seq<string> {
    if lines == [] then []
    else
      var line := lines[|lines| - 1];
      Kept(lines[..|lines| - 1], space) + if Payload(line, space).None? then [line] else []
  }

  function Found<D>(line: string, codec: Codec<D>): seq<D> {
    var payload := Payload(line, codec.space);
    if payload.Some? && codec.decode(payload.value).Some? then [codec.decode(payload.value).value] else []
  }

  function Declared<D>(lines: seq<string>, codec: Codec<D>): seq<D> {
    if lines == [] then []
    else Declared(lines[..|lines| - 1], codec) + Found(lines[|lines| - 1], codec)
  }

  datatype Stripped<D> = Stripped(clean: string, decls: seq<D>)

  /** The lines that are no declarations, and the declarations that decode. */
  function Strip<D>(text: string, codec: Codec<D>): Stripped<D> {
    Stripped(Concat(Kept(SplitInclusive(text), codec.space)), Declared(SplitInclusive(text), codec))
  }

  ghost predicate AllSpace(s: string, space: char -> bool) {
    forall i | 0 <= i < |s| :: space(s[i])
  }

  /** White space, the marker, more white space, and then a brace or nothing. */
  ghost predicate DeclaresWith(line: string, space: char -> bool, payload: string, indent: string, gap: string) {
    && line == indent + ("@@PECO_ARTIFACT" + (gap + payload))
    && AllSpace(indent, space) && AllSpace(gap, space) && !space('@')
    && (payload != "" ==> payload[0] == '{' && !space('{'))
  }

  /** The line is a declaration with this payload. */
  ghost predicate Declares(line: string, space: char -> bool, payload: string) {
    exists indent, gap :: DeclaresWith(line, space, payload, indent, gap)
  }

  lemma {:induction false} TrimBehind(front: string, rest: string, space: char -> bool)
    requires AllSpace(front, space) && (rest == "" || !space(rest[0]))
    ensures TrimStart(front + rest, space) == rest
    decreases |front|
  {
    if front == "" {
      assert front + rest == rest;
    } else {
      assert (front + rest)[1..] == front[1..] + rest;
      TrimBehind(front[1..], rest, space);
    }
  }

  lemma TrimmedFront(s: string, space: char -> bool) returns (front: string)
    ensures s == front + TrimStart(s, space) && AllSpace(front, space)
  {
    front := s[..|s| - |TrimStart(s, space)|];
  }

  lemma MarkerBehind(tail: string)
    ensures MARKER <= MARKER + tail && (MARKER + tail)[|MARKER|..] == tail && (MARKER + tail)[0] == '@'
  {
  }

  lemma PayloadDeclares(line: string, space: char -> bool)
    requires Payload(line, space).Some?
    ensures Declares(line, space, Payload(line, space).value)
  {
    hide TrimStart, AllSpace;
    var trimmed := TrimStart(line, space);
    var indent := TrimmedFront(line, space);
    var tail := trimmed[|MARKER|..];
    assert trimmed == MARKER + tail;
    MarkerBehind(tail);
    var gap := TrimmedFront(tail, space);
    assert DeclaresWith(line, space, TrimStart(tail, space), indent, gap);
  }

  lemma DeclaresPayload(line: string, space: char -> bool, payload: string, indent: string, gap: string)
    requires DeclaresWith(line, space, payload, indent, gap)
    ensures Payload(line, space) == Some(payload)
  {
    hide TrimStart, AllSpace;
    MarkerBehind(gap + payload);
    TrimBehind(indent, MARKER + (gap + payload), space);
    TrimBehind(gap, payload, space);
  }

  /** A declaration, told from the characters of its line. */
  lemma PayloadIff(line: string, space: char -> bool, payload: string)
    ensures Payload(line, space) == Some(payload) <==> Declares(line, space, payload)
  {
    hide Payload, DeclaresWith;
    if Payload(line, space).Some? {
      PayloadDeclares(line, space);
    }
    if Declares(line, space, payload) {
      var indent, gap :| DeclaresWith(line, space, payload, indent, gap);
      DeclaresPayload(line, space, payload, indent, gap);
    }
  }

  /** One line: kept as it is, or dropped with what it declares, if that decodes. */
  lemma StripOneLine<D>(line: string, codec: Codec<D>)
    requires IsLine(line)
    ensures (forall p :: !Declares(line, codec.space, p)) ==> Strip(line, codec) == Stripped(line, [])
    ensures forall p | Declares(line, codec.space, p) ::
              Strip(line, codec) ==
              Stripped("", if codec.decode(p).Some? then [codec.decode(p).value] else [])
  {
    hide Declares, Payload, SplitInclusive;
    forall p: string ensures Payload(line, codec.space) == Some(p) <==> Declares(line, codec.space, p) {
      PayloadIff(line, codec.space, p);
    }
    SplitOne(line);
    assert [line][..0] == [];
    assert Declared([line], codec) == Declared([], codec) + Found(line, codec) == Found(line, codec);
    if Payload(line, codec.space).Some? {
      assert Kept([line], codec.space) == [];
    } else {
      assert Kept([line], codec.space) == [line] && Concat([line]) == line;
    }
  }

  predicate IsAt(text: string, i: nat, part: string) {
    i + |part| <= |text| && text[i..i + |part|] == part
  }

  predicate Contains(text: string, part: string) {
    exists i: nat :: i <= |text| && IsAt(text, i, part)
  }

  lemma {:induction false} KeptConcat(a: seq<string>, b: seq<string>, space: char -> bool)
    ensures Kept(a + b, space) == Kept(a, space) + Kept(b, space)
  {
    hide Payload;
    if b == [] {
      assert a + b == a;
    } else {
      KeptConcat(a, b[..|b| - 1], space);
      assert (a + b)[..|a + b| - 1] == a + b[..|b| - 1];
    }
  }

  lemma {:induction false} DeclaredConcat<D>(a: seq<string>, b: seq<string>, codec: Codec<D>)
    ensures Declared(a + b, codec) == Declared(a, codec) + Declared(b, codec)
  {
    hide Found;
    if b == [] {
      assert a + b == a;
    } else {
      DeclaredConcat(a, b[..|b| - 1], codec);
      assert (a + b)[..|a + b| - 1] == a + b[..|b| - 1];
    }
  }

  lemma {:induction false} ConcatConcat(a: seq<string>, b: seq<string>)
    ensures Concat(a + b) == Concat(a) + Concat(b)
  {
    if b == [] {
      assert a + b == a;
    } else {
      ConcatConcat(a, b[..|b| - 1]);
      assert (a + b)[..|a + b| - 1] == a + b[..|b| - 1];
    }
  }

  /** Stripping distributes over text put together at a line boundary. */
  lemma StripDistributes<D>(a: string, b: string, codec: Codec<D>)
    requires a == "" || EndsLine(a)
    ensures Strip(a + b, codec) ==
            Stripped(Strip(a, codec).clean + Strip(b, codec).clean, Strip(a, codec).decls + Strip(b, codec).decls)
  {
    hide SplitInclusive, Kept, Declared, Concat, EndsLine;
    var x, y := SplitInclusive(a), SplitInclusive(b);
    SplitConcat(a, b);
    KeptConcat(x, y, codec.space);
    DeclaredConcat(x, y, codec);
    ConcatConcat(Kept(x, codec.space), Kept(y, codec.space));
  }

  /** The lines kept are still cut where they were. */
  lemma {:induction false} KeptIsWellCut(lines: seq<string>, space: char -> bool)
    requires WellCut(lines)
    ensures WellCut(Kept(lines, space))
    ensures (forall k | 0 <= k < |lines| :: EndsLine(lines[k])) ==>
            forall k | 0 <= k < |Kept(lines, space)| :: EndsLine(Kept(lines, space)[k])
    ensures forall k | 0 <= k < |Kept(lines, space)| :: Payload(Kept(lines, space)[k], space).None?
  {
    hide IsLine, EndsLine, Payload;
    if lines != [] {
      KeptIsWellCut(lines[..|lines| - 1], space);
    }
  }

  lemma {:induction false} NothingToStrip<D>(lines: seq<string>, codec: Codec<D>)
    requires forall k | 0 <= k < |lines| :: Payload(lines[k], codec.space).None?
    ensures Kept(lines, codec.space) == lines && Declared(lines, codec) == []
  {
    hide Payload;
    if lines != [] {
      NothingToStrip(lines[..|lines| - 1], codec);
    }
  }

  /** Stripping once is enough. */
  lemma StripIsIdempotent<D>(text: string, codec: Codec<D>)
    ensures Strip(Strip(text, codec).clean, codec) == Stripped(Strip(text, codec).clean, [])
  {
    hide SplitInclusive, Kept, Declared, Concat, WellCut, Payload;
    var lines := SplitInclusive(text);
    SplitLosesNothing(text);
    KeptIsWellCut(lines, codec.space);
    SplitOfConcat(Kept(lines, codec.space));
    NothingToStrip(Kept(lines, codec.space), codec);
  }

  lemma ContainsPart(whole: string, at: nat, part: string, inner: string)
    requires IsAt(whole, at, part) && Contains(part, inner)
    ensures Contains(whole, inner)
  {
    var i: nat :| i <= |part| && IsAt(part, i, inner);
    assert forall j | 0 <= j < |inner| :: whole[at + (i + j)] == part[i + j] == inner[j];
    assert IsAt(whole, at + i, inner);
  }

  lemma PayloadNeedsMarker(line: string, space: char -> bool)
    requires Payload(line, space).Some?
    ensures Contains(line, MARKER)
  {
    var trimmed := TrimStart(line, space);
    MarkerInside(line, |line| - |trimmed|);
  }

  lemma MarkerInside(line: string, i: nat)
    requires i <= |line| && MARKER <= line[i..]
    ensures Contains(line, MARKER)
  {
    assert line[i..i + |MARKER|] == line[i..][..|MARKER|];
    assert IsAt(line, i, MARKER);
  }

  lemma {:induction false} NoMarkerNoPayload<D>(lines: seq<string>, codec: Codec<D>)
    requires !Contains(Concat(lines), MARKER)
    ensures forall k | 0 <= k < |lines| :: Payload(lines[k], codec.space).None?
  {
    hide Payload, Contains;
    if lines != [] {
      var n := |lines| - 1;
      if Contains(Concat(lines[..n]), MARKER) {
        ContainsPart(Concat(lines), 0, Concat(lines[..n]), MARKER);
      }
      NoMarkerNoPayload(lines[..n], codec);
      if Payload(lines[n], codec.space).Some? {
        PayloadNeedsMarker(lines[n], codec.space);
        ContainsPart(Concat(lines), |Concat(lines[..n])|, lines[n], MARKER);
      }
    }
  }

  /** The short cut for texts without the marker changes nothing. */
  lemma FastPathAgrees<D>(text: string, codec: Codec<D>)
    requires !Contains(text, MARKER)
    ensures Strip(text, codec) == Stripped(text, [])
  {
    hide Contains, Payload, Kept, Declared, Concat, SplitInclusive, WellCut;
    SplitLosesNothing(text);
    NoMarkerNoPayload(SplitInclusive(text), codec);
    NothingToStrip(SplitInclusive(text), codec);
  }

  method StripArtifactLines<D>(text: string, codec: Codec<D>) returns (clean: string, decls: seq<D>)
    ensures Stripped(clean, decls) == Strip(text, codec)
  {
    hide Payload, SplitInclusive, Contains, Kept, Declared, Concat;
    if !Contains(text, MARKER) {
      FastPathAgrees(text, codec);
      return text, [];
    }
    clean, decls := "", [];
    var lines := SplitInclusive(text);
    NoLines(codec);
    assert lines[..0] == [];
    for k := 0 to |lines|
      invariant clean == Concat(Kept(lines[..k], codec.space)) && decls == Declared(lines[..k], codec)
    {
      var line := lines[k];
      OneMoreLine(lines, k, codec);
      var payload := Payload(line, codec.space);
      if payload.None? {
        clean := clean + line;
      } else {
        var decl := codec.decode(payload.value);
        if decl.Some? {
          decls := decls + [decl.value];
        }
      }
    }
    assert lines[..|lines|] == lines;
  }

  lemma NoLines<D>(codec: Codec<D>)
    ensures Concat(Kept([], codec.space)) == "" && Declared([], codec) == []
  {
  }

  lemma OneMoreLine<D>(lines: seq<string>, k: nat, codec: Codec<D>)
    requires k < |lines|
    ensures Declared(lines[..k + 1], codec) == Declared(lines[..k], codec) + Found(lines[k], codec)
    ensures Concat(Kept(lines[..k + 1], codec.space)) ==
            Concat(Kept(lines[..k], codec.space)) + if Payload(lines[k], codec.space).None? then lines[k] else ""
  {
    hide Concat, Found, Payload;
    assert lines[..k + 1][..k] == lines[..k];
    if Payload(lines[k], codec.space).None? {
      ConcatAppend(Kept(lines[..k], codec.space), lines[k]);
    } else {
      assert Kept(lines[..k], codec.space) + [] == Kept(lines[..k], codec.space);
    }
  }

  // ---------------------------------------------------------------------------------------------
  // Injecting
  // ---------------------------------------------------------------------------------------------

  function Rendered<D>(d: D, codec: Codec<D>): string {
    MARKER + " " + codec.encode(d) + "\n"
  }

  function Render<D>(decls: seq<D>, codec: Codec<D>): string {
    if decls == [] then "" else Render(decls[..|decls| - 1], codec) + Rendered(decls[|decls| - 1], codec)
  }

  function WithLines<D>(text: string, decls: seq<D>, codec: Codec<D>): string {
    if decls == [] then text else Render(decls, codec) + text
  }

  method RenderArtifactLines<D>(decls: seq<D>, codec: Codec<D>) returns (r: string)
    ensures r == Render(decls, codec)
  {
    r := "";
    for k := 0 to |decls|
      invariant r == Render(decls[..k], codec)
    {
      assert decls[..k + 1][..k] == decls[..k];
      ghost var before := r;
      r := r + MARKER;
      r := r + " ";
      r := r + codec.encode(decls[k]);
      r := r + "\n";
      assert r == before + Rendered(decls[k], codec);
    }
    assert decls[..|decls|] == decls;
  }

  method WithArtifactLines<D>(text: string, decls: seq<D>, codec: Codec<D>) returns (r: string)
    ensures r == WithLines(text, decls, codec)
  {
    if decls == [] {
      return text;
    }
    r := RenderArtifactLines(decls, codec);
    r := r + text;
  }

  lemma RenderedPayload<D>(d: D, codec: Codec<D>)
    requires codec.space(' ') && !codec.space('{') && !codec.space('@') && LawfulFor(codec, d)
    ensures IsLine(Rendered(d, codec)) && EndsLine(Rendered(d, codec))
    ensures Payload(Rendered(d, codec), codec.space) == Some(codec.encode(d) + "\n")
  {
    hide Payload, LawfulFor;
    var json := codec.encode(d) + "\n";
    LawfulJson(d, codec);
    assert Rendered(d, codec) == MARKER + (" " + json);
    MarkerPayload(json, codec.space);
    RenderedIsLine(codec.encode(d));
  }

  lemma LawfulJson<D>(d: D, codec: Codec<D>)
    requires LawfulFor(codec, d)
    ensures codec.encode(d) != "" && codec.encode(d)[0] == '{' && '\n' !in codec.encode(d)
  {
  }

  lemma RenderedIsLine(json: string)
    requires '\n' !in json
    ensures IsLine(MARKER + (" " + (json + "\n"))) && EndsLine(MARKER + (" " + (json + "\n")))
  {
    assert forall i | 0 <= i < |MARKER| :: MARKER[i] != '\n';
  }

  lemma MarkerPayload(json: string, space: char -> bool)
    requires space(' ') && !space('@') && json != "" && json[0] == '{' && !space('{')
    ensures Payload(MARKER + (" " + json), space) == Some(json)
  {
    var line, rest := MARKER + (" " + json), " " + json;
    assert line[0] == '@' && line[..|MARKER|] == MARKER && line[|MARKER|..] == rest;
    assert TrimStart(line, space) == line;
    assert rest[0] == ' ' && rest[1..] == json;
    assert TrimStart(rest, space) == json;
  }

  ghost predicate IsRendered<D>(line: string, d: D, codec: Codec<D>) {
    line == "@@PECO_ARTIFACT " + codec.encode(d) + "\n"
  }

  lemma RenderedLine<D>(d: D, codec: Codec<D>)
    requires '\n' !in codec.encode(d)
    ensures IsRendered(Rendered(d, codec), d, codec)
    ensures IsLine(Rendered(d, codec)) && EndsLine(Rendered(d, codec))
  {
    assert MARKER + " " == "@@PECO_ARTIFACT ";
    assert Rendered(d, codec) == MARKER + (" " + (codec.encode(d) + "\n"));
    RenderedIsLine(codec.encode(d));
  }

  /** One line for each declaration, in order: the marker, one blank, the encoding. */
  lemma {:induction false} RenderedLines<D>(decls: seq<D>, codec: Codec<D>)
    requires forall k | 0 <= k < |decls| :: '\n' !in codec.encode(decls[k])
    ensures Render(decls, codec) == "" || EndsLine(Render(decls, codec))
    ensures |SplitInclusive(Render(decls, codec))| == |decls|
    ensures forall k | 0 <= k < |decls| :: IsRendered(SplitInclusive(Render(decls, codec))[k], decls[k], codec)
  {
    hide SplitInclusive, EndsLine, IsLine, IsRendered, Rendered, Render;
    RenderUnfolds(decls, codec);
    if decls == [] {
      SplitNothing();
    } else {
      var front, last := decls[..|decls| - 1], decls[|decls| - 1];
      RenderedLines(front, codec);
      RenderedLine(last, codec);
      SplitConcat(Render(front, codec), Rendered(last, codec));
      SplitOne(Rendered(last, codec));
      EndsLater(Render(front, codec), Rendered(last, codec));
    }
  }

  lemma EndsLater(a: string, b: string)
    requires EndsLine(b)
    ensures EndsLine(a + b)
  {
  }

  lemma OneDeclaration<D>(line: string, codec: Codec<D>)
    requires Payload(line, codec.space).Some?
    ensures Kept([line], codec.space) == [] && Declared([line], codec) == Found(line, codec)
  {
    hide Payload, Found;
    assert [line][..0] == [];
    assert [] + Found(line, codec) == Found(line, codec);
  }

  lemma StripRendered<D>(d: D, codec: Codec<D>)
    requires codec.space(' ') && !codec.space('{') && !codec.space('@') && LawfulFor(codec, d)
    ensures Strip(Rendered(d, codec), codec) == Stripped("", [d])
  {
    hide SplitInclusive, Payload, Rendered;
    var line := Rendered(d, codec);
    RenderedPayload(d, codec);
    SplitOne(line);
    assert [line][..0] == [];
    LawfulJson(d, codec);
    assert Found(line, codec) == [d];
    OneDeclaration(line, codec);
  }

  lemma {:induction false} StripRender<D(!new)>(decls: seq<D>, codec: Codec<D>)
    requires Lawful(codec)
    ensures Strip(Render(decls, codec), codec) == Stripped("", decls)
    ensures Render(decls, codec) == "" || EndsLine(Render(decls, codec))
  {
    hide Strip, Rendered, Render;
    RenderUnfolds(decls, codec);
    if decls == [] {
      StripOfNothing(codec);
    } else {
      var front, last := decls[..|decls| - 1], decls[|decls| - 1];
      StripRender(front, codec);
      StripOneMore(Render(front, codec), front, last, codec);
      assert decls == front + [last];
    }
  }

  lemma RenderUnfolds<D>(decls: seq<D>, codec: Codec<D>)
    ensures decls == [] ==> Render(decls, codec) == ""
    ensures decls != [] ==>
              Render(decls, codec) == Render(decls[..|decls| - 1], codec) + Rendered(decls[|decls| - 1], codec)
  {
  }

  lemma StripOneMore<D(!new)>(block: string, front: seq<D>, last: D, codec: Codec<D>)
    requires Lawful(codec) && (block == "" || EndsLine(block)) && Strip(block, codec) == Stripped("", front)
    ensures Strip(block + Rendered(last, codec), codec) == Stripped("", front + [last])
    ensures EndsLine(block + Rendered(last, codec))
  {
    hide Strip, Rendered, Payload, IsLine;
    assert LawfulFor(codec, last);
    StripRendered(last, codec);
    RenderedPayload(last, codec);
    StripDistributes(block, Rendered(last, codec), codec);
  }

  lemma StripOfNothing<D>(codec: Codec<D>)
    ensures Strip("", codec) == Stripped("", [])
  {
  }

  /** Injecting declarations and stripping gives them back, in front of those the text had. */
  lemma StripUndoesWith<D(!new)>(text: string, decls: seq<D>, codec: Codec<D>)
    requires Lawful(codec)
    ensures Strip(WithLines(text, decls, codec), codec) ==
            Stripped(Strip(text, codec).clean, decls + Strip(text, codec).decls)
  {
    hide Strip, Render;
    if decls == [] {
      assert decls + Strip(text, codec).decls == Strip(text, codec).decls;
    } else {
      StripRender(decls, codec);
      StripDistributes(Render(decls, codec), text, codec);
    }
  }

  /** What was stripped can be put back and stripped again: the same text and the same declarations. */
  lemma StripWithStrip<D(!new)>(text: string, codec: Codec<D>)
    requires Lawful(codec)
    ensures var s := Strip(text, codec); Strip(WithLines(s.clean, s.decls, codec), codec) == s
  {
    hide Strip, WithLines;
    var s := Strip(text, codec);
    StripUndoesWith(s.clean, s.decls, codec);
    assert s.decls + [] == s.decls;
    StripIsIdempotent(text, codec);
  }

  // ---------------------------------------------------------------------------------------------
  // Content with parts
  // ---------------------------------------------------------------------------------------------

  datatype Part<O> = TextPart(text: string) | OtherPart(other: O)

  datatype Content<O> = Text(text: string) | Parts(parts: seq<Part<O>>)

  datatype PartsStripped<O, D> = PartsStripped(parts: seq<Part<O>>, decls: seq<D>)

  function StrippedPart<O, D>(part: Part<O>, codec: Codec<D>): PartsStripped<O, D> {
    match part
    case OtherPart(_) => PartsStripped([part], [])
    case TextPart(text) =>
      var s := Strip(text, codec);
      PartsStripped(if s.clean == "" then [] else [TextPart(s.clean)], s.decls)
  }

  function StrippedParts<O, D>(parts: seq<Part<O>>, codec: Codec<D>): PartsStripped<O, D> {
    if parts == [] then PartsStripped([], [])
    else
      var front := StrippedParts(parts[..|parts| - 1], codec);
      var last := StrippedPart(parts[|parts| - 1], codec);
      PartsStripped(front.parts + last.parts, front.decls + last.decls)
  }

  /** Parts are stripped one by one, and what each declares is kept, in order. */
  lemma {:induction false} PartsStripDistributes<O, D>(a: seq<Part<O>>, b: seq<Part<O>>, codec: Codec<D>)
    ensures StrippedParts(a + b, codec) ==
            PartsStripped(StrippedParts(a, codec).parts + StrippedParts(b, codec).parts,
                          StrippedParts(a, codec).decls + StrippedParts(b, codec).decls)
  {
    hide StrippedPart;
    if b == [] {
      assert a + b == a;
    } else {
      PartsStripDistributes(a, b[..|b| - 1], codec);
      assert (a + b)[..|a + b| - 1] == a + b[..|b| - 1];
    }
  }

  /** One part: a text is stripped as any text, and goes if nothing is left of it; anything else stays. */
  lemma OnePartStripped<O, D>(part: Part<O>, codec: Codec<D>)
    ensures part.OtherPart? ==> StrippedParts([part], codec) == PartsStripped([part], [])
    ensures part.TextPart? ==> StrippedParts([part], codec).decls == Strip(part.text, codec).decls
    ensures part.TextPart? ==>
              var clean := Strip(part.text, codec).clean;
              StrippedParts([part], codec).parts == if clean == "" then [] else [TextPart(clean)]
  {
    hide Strip;
    assert [part][..0] == [];
  }

  /** Text parts stripped, empty ones dropped; no content at all becomes the empty text. */
  function CleanContent<O, D>(content: Content<O>, codec: Codec<D>): Content<O> {
    match content
    case Text(text) => Text(Strip(text, codec).clean)
    case Parts(parts) =>
      var kept := StrippedParts(parts, codec).parts;
      if kept == [] then Text("") else Parts(kept)
  }

  function ContentDecls<O, D>(content: Content<O>, codec: Codec<D>): seq<D> {
    match content
    case Text(text) => Strip(text, codec).decls
    case Parts(parts) => StrippedParts(parts, codec).decls
  }

  method StripContent<O, D>(content: Content<O>, codec: Codec<D>) returns (clean: Content<O>, decls: seq<D>)
    ensures clean == CleanContent(content, codec) && decls == ContentDecls(content, codec)
  {
    hide Strip;
    match content
    case Text(text) =>
      var t, ds := StripArtifactLines(text, codec);
      return Text(t), ds;
    case Parts(parts) =>
      var kept;
      kept, decls := StripParts(parts, codec);
      clean := if kept == [] then Text("") else Parts(kept);
  }

  method StripParts<O, D>(parts: seq<Part<O>>, codec: Codec<D>) returns (kept: seq<Part<O>>, decls: seq<D>)
    ensures PartsStripped(kept, decls) == StrippedParts(parts, codec)
  {
    hide Strip;
    kept, decls := [], [];
    for k := 0 to |parts|
      invariant PartsStripped(kept, decls) == StrippedParts(parts[..k], codec)
    {
      assert parts[..k + 1][..k] == parts[..k];
      match parts[k] {
        case TextPart(text) =>
          var t, found := StripArtifactLines(text, codec);
          decls := decls + found;
          if t != "" {
            kept := kept + [TextPart(t)];
          }
        case OtherPart(_) =>
          kept := kept + [parts[k]];
      }
    }
    assert parts[..|parts|] == parts;
  }

  function Others<O>(parts: seq<Part<O>>): seq<O> {
    if parts == [] then []
    else Others(parts[..|parts| - 1]) + if parts[|parts| - 1].OtherPart? then [parts[|parts| - 1].other] else []
  }

  predicate IsClean<O, D(==)>(part: Part<O>, codec: Codec<D>) {
    part.TextPart? ==> part.text != "" && Strip(part.text, codec) == Stripped(part.text, [])
  }

  lemma StrippedPartIsClean<O, D>(part: Part<O>, codec: Codec<D>)
    ensures forall k | 0 <= k < |StrippedPart(part, codec).parts| :: IsClean(StrippedPart(part, codec).parts[k], codec)
    ensures Others(StrippedPart(part, codec).parts) == Others([part])
  {
    hide Strip;
    assert [part][..0] == [];
    if part.TextPart? {
      StripIsIdempotent(part.text, codec);
      assert forall p: Part<O> :: [p][..0] == [];
    }
  }

  lemma {:induction false} OthersConcat<O>(a: seq<Part<O>>, b: seq<Part<O>>)
    ensures Others(a + b) == Others(a) + Others(b)
  {
    if b == [] {
      assert a + b == a;
    } else {
      OthersConcat(a, b[..|b| - 1]);
      assert (a + b)[..|a + b| - 1] == a + b[..|b| - 1];
    }
  }

  /** Stripped parts are clean, not empty, and every other part is still there in its place. */
  lemma {:induction false} StrippedPartsAreClean<O, D>(parts: seq<Part<O>>, codec: Codec<D>)
    ensures forall k | 0 <= k < |StrippedParts(parts, codec).parts| ::
            IsClean(StrippedParts(parts, codec).parts[k], codec)
    ensures Others(StrippedParts(parts, codec).parts) == Others(parts)
  {
    hide IsClean, StrippedPart, Others;
    if parts != [] {
      var front, last := parts[..|parts| - 1], parts[|parts| - 1];
      StrippedPartsAreClean(front, codec);
      StrippedPartIsClean(last, codec);
      OthersConcat(StrippedParts(front, codec).parts, StrippedPart(last, codec).parts);
      OthersConcat(front, [last]);
      assert front + [last] == parts;
    }
  }

  lemma {:induction false} CleanPartsStay<O, D>(parts: seq<Part<O>>, codec: Codec<D>)
    requires forall k | 0 <= k < |parts| :: IsClean(parts[k], codec)
    ensures StrippedParts(parts, codec) == PartsStripped(parts, [])
  {
    hide IsClean, StrippedPart;
    if parts != [] {
      var front, last := parts[..|parts| - 1], parts[|parts| - 1];
      CleanPartsStay(front, codec);
      CleanPartStays(last, codec);
      assert front + [last] == parts;
    }
  }

  lemma CleanPartStays<O, D>(part: Part<O>, codec: Codec<D>)
    requires IsClean(part, codec)
    ensures StrippedPart(part, codec) == PartsStripped([part], [])
  {
    hide Strip;
  }

  /** Stripping content once is enough too. */
  lemma ContentStripIsIdempotent<O, D>(content: Content<O>, codec: Codec<D>)
    ensures CleanContent(CleanContent(content, codec), codec) == CleanContent(content, codec)
    ensures ContentDecls(CleanContent(content, codec), codec) == []
  {
    hide Strip, StrippedParts, IsClean;
    match content
    case Text(text) =>
      StripIsIdempotent(text, codec);
    case Parts(parts) =>
      StrippedPartsAreClean(parts, codec);
      CleanPartsStay(StrippedParts(parts, codec).parts, codec);
      StripOfNothing(codec);
  }
}
