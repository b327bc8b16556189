/**
 The incremental parser of server-sent events.  What trimming removes and how a payload is decoded are
 parameters; a payload that does not decode is `None`.
 */
module SseParser {
  import opened Common

  datatype Event<D> = Event(name: string, data: D)

  datatype Parsed<D> = Parsed(events: seq<Event<D>>, remaining: string, pending: string)

  const EVENT := "event: "
  const DATA := "data: "

  // ---------------------------------------------------------------------------------------------
  // Lines
  // ---------------------------------------------------------------------------------------------

  /** The text split at its newlines: at least one piece, the last of them what follows the last newline. */
  function Split(s: string): (r: seq<string>)
    ensures r != []
  {
    if s == "" then [""] else AddChar(Split(s[..|s| - 1]), s[|s| - 1])
  }

  function AddChar(pieces: seq<string>, c: char): (r: seq<string>)
    requires pieces != []
    ensures r != []
  {
    if c == '\n' then pieces + [""] else pieces[..|pieces| - 1] + [pieces[|pieces| - 1] + [c]]
  }

  lemma AddCharAtEnd(before: seq<string>, pieces: seq<string>, c: char)
    requires pieces != []
    ensures AddChar(before + pieces, c) == before + AddChar(pieces, c)
  {
  }

  lemma SplitAppend(s: string, c: char)
    ensures Split(s + [c]) == AddChar(Split(s), c)
  {
    assert (s + [c])[..|s|] == s;
  }

  function Joined(pieces: seq<string>): string
    requires pieces != []
  {
    if |pieces| == 1 then pieces[0] else Joined(pieces[..|pieces| - 1]) + "\n" + pieces[|pieces| - 1]
  }

  /** Split and join are inverse, and no piece has a newline. */
  lemma {:induction false} SplitLosesNothing(s: string)
    ensures Joined(Split(s)) == s
    ensures forall k | 0 <= k < |Split(s)| :: '\n' !in Split(s)[k]
  {
    hide AddChar;
    if s != "" {
      SplitLosesNothing(s[..|s| - 1]);
      assert s == s[..|s| - 1] + [s[|s| - 1]];
      AddCharJoins(Split(s[..|s| - 1]), s[|s| - 1]);
    }
  }

  lemma AddCharJoins(pieces: seq<string>, c: char)
    requires pieces != [] && forall k | 0 <= k < |pieces| :: '\n' !in pieces[k]
    ensures Joined(AddChar(pieces, c)) == Joined(pieces) + [c]
    ensures forall k | 0 <= k < |AddChar(pieces, c)| :: '\n' !in AddChar(pieces, c)[k]
  {
    var longer := AddChar(pieces, c);
    assert longer[..|longer| - 1] == if c == '\n' then pieces else pieces[..|pieces| - 1];
  }

  lemma {:induction false} NoNewlineNoSplit(s: string)
    requires '\n' !in s
    ensures Split(s) == [s]
  {
    if s != "" {
      assert s == s[..|s| - 1] + [s[|s| - 1]];
      NoNewlineNoSplit(s[..|s| - 1]);
    }
  }

  /** Splitting can stop anywhere and go on with the last piece. */
  lemma {:induction false} SplitGoesOn(a: string, b: string)
    ensures Split(a + b) == Split(a)[..|Split(a)| - 1] + Split(Split(a)[|Split(a)| - 1] + b)
  {
    hide Split, AddChar;
    var n := |Split(a)| - 1;
    var last := Split(a)[n];
    if b == "" {
      SplitLosesNothing(a);
      NoNewlineNoSplit(last);
      assert a + b == a && last + b == last;
    } else {
      var b0, c := b[..|b| - 1], b[|b| - 1];
      SplitGoesOn(a, b0);
      assert a + b == (a + b0) + [c] && last + b == (last + b0) + [c];
      SplitAppend(a + b0, c);
      SplitAppend(last + b0, c);
      AddCharAtEnd(Split(a)[..n], Split(last + b0), c);
    }
  }

  // ---------------------------------------------------------------------------------------------
  // Events
  // ---------------------------------------------------------------------------------------------

  predicate IsEvent(line: string) {
    EVENT <= line
  }

  predicate IsData(line: string) {
    !IsEvent(line) && DATA <= line
  }

  predicate IsBoundary(line: string, trim: string -> string) {
    !IsEvent(line) && !IsData(line) && trim(line) == ""
  }

  /** The event name in force before line `k`. */
  function NameAt(lines: seq<string>, k: nat, pending: string, trim: string -> string): string
    requires k <= |lines|
  {
    if k == 0 then pending
    else if IsEvent(lines[k - 1]) then trim(lines[k - 1][7..])
    else if IsBoundary(lines[k - 1], trim) then ""
    else NameAt(lines, k - 1, pending, trim)
  }

  /** One event for each data line that decodes, under the name in force. */
  function EventsUpTo<D>(lines: seq<string>, k: nat, pending: string, trim: string -> string,
      decode: string -> Option<D>): seq<Event<D>>
    requires k <= |lines|
  {
    if k == 0 then []
    else
      EventsUpTo(lines, k - 1, pending, trim, decode) +
      if IsData(lines[k - 1]) && decode(lines[k - 1][6..]).Some?
      then [Event(NameAt(lines, k - 1, pending, trim), decode(lines[k - 1][6..]).value)]
      else []
  }

  ghost predicate SetsName(line: string, trim: string -> string) {
    IsEvent(line) || IsBoundary(line, trim)
  }

  /** The name is that of the last event line, unless a blank line came after it. */
  lemma {:induction false} NameIsTheLastSet(lines: seq<string>, k: nat, pending: string, trim: string -> string, j: nat)
    requires k <= |lines| && j <= k
    requires forall m | j <= m < k :: !SetsName(lines[m], trim)
    requires j > 0 ==> SetsName(lines[j - 1], trim)
    ensures NameAt(lines, k, pending, trim) ==
            if j == 0 then pending else if IsEvent(lines[j - 1]) then trim(lines[j - 1][7..]) else ""
    decreases k
  {
    if k > j {
      assert !SetsName(lines[k - 1], trim);
      NameIsTheLastSet(lines, k - 1, pending, trim, j);
    }
  }

  lemma {:induction false} NameGoesOn(a: seq<string>, b: seq<string>, k: nat, pending: string, trim: string -> string)
    requires k <= |b|
    ensures NameAt(a + b, |a| + k, pending, trim) == NameAt(b, k, NameAt(a, |a|, pending, trim), trim)
    decreases k
  {
    if k == 0 {
      NameOfPrefix(a, b, |a|, pending, trim);
    } else {
      assert (a + b)[|a| + k - 1] == b[k - 1];
      NameGoesOn(a, b, k - 1, pending, trim);
    }
  }

  lemma {:induction false} NameOfPrefix(a: seq<string>, b: seq<string>, k: nat, pending: string, trim: string -> string)
    requires k <= |a|
    ensures NameAt(a + b, k, pending, trim) == NameAt(a, k, pending, trim)
    decreases k
  {
    if k > 0 {
      assert (a + b)[k - 1] == a[k - 1];
      NameOfPrefix(a, b, k - 1, pending, trim);
    }
  }

  lemma {:induction false} EventsOfPrefix<D>(a: seq<string>, b: seq<string>, k: nat, pending: string,
      trim: string -> string, decode: string -> Option<D>)
    requires k <= |a|
    ensures EventsUpTo(a + b, k, pending, trim, decode) == EventsUpTo(a, k, pending, trim, decode)
    decreases k
  {
    if k > 0 {
      assert (a + b)[k - 1] == a[k - 1];
      NameOfPrefix(a, b, k - 1, pending, trim);
      EventsOfPrefix(a, b, k - 1, pending, trim, decode);
    }
  }

  lemma {:induction false} EventsGoOn<D>(a: seq<string>, b: seq<string>, k: nat, pending: string,
      trim: string -> string, decode: string -> Option<D>)
    requires k <= |b|
    ensures EventsUpTo(a + b, |a| + k, pending, trim, decode) ==
            EventsUpTo(a, |a|, pending, trim, decode) + EventsUpTo(b, k, NameAt(a, |a|, pending, trim), trim, decode)
    decreases k
  {
    hide NameAt;
    if k == 0 {
      EventsOfPrefix(a, b, |a|, pending, trim, decode);
    } else {
      assert (a + b)[|a| + k - 1] == b[k - 1];
      NameGoesOn(a, b, k - 1, pending, trim);
      EventsGoOn(a, b, k - 1, pending, trim, decode);
    }
  }

  // ---------------------------------------------------------------------------------------------
  // The parser
  // ---------------------------------------------------------------------------------------------

  /** The result of one call. */
  function Parse<D>(chunk: string, buffer: string, pending: string, trim: string -> string,
      decode: string -> Option<D>): Parsed<D> {
    var pieces := Split(buffer + chunk);
    var n: nat := |pieces| - 1;
    Parsed(EventsUpTo(pieces[..n], n, pending, trim, decode), pieces[n], NameAt(pieces[..n], n, pending, trim))
  }

  /** Calls one after the other, what remains and the pending name handed on. */
  function Feed<D>(chunks: seq<string>, buffer: string, pending: string, trim: string -> string,
      decode: string -> Option<D>): Parsed<D> {
    if chunks == [] then Parsed([], buffer, pending)
    else
      var before := Feed(chunks[..|chunks| - 1], buffer, pending, trim, decode);
      var last := Parse(chunks[|chunks| - 1], before.remaining, before.pending, trim, decode);
      Parsed(before.events + last.events, last.remaining, last.pending)
  }

  lemma RemainingHasNoNewline<D>(chunk: string, buffer: string, pending: string, trim: string -> string,
      decode: string -> Option<D>)
    ensures '\n' !in Parse(chunk, buffer, pending, trim, decode).remaining
  {
    SplitLosesNothing(buffer + chunk);
  }

  /** Two calls in a row do what one call with both chunks does. */
  lemma ParseGoesOn<D>(a: string, b: string, buffer: string, pending: string, trim: string -> string,
      decode: string -> Option<D>)
    ensures var first := Parse(a, buffer, pending, trim, decode);
            var second := Parse(b, first.remaining, first.pending, trim, decode);
            Parse(a + b, buffer, pending, trim, decode) ==
                Parsed(first.events + second.events, second.remaining, second.pending)
  {
    hide Split, NameAt, EventsUpTo;
    var s := Split(buffer + a);
    var n: nat := |s| - 1;
    var t := Split(s[n] + b);
    var m: nat := |t| - 1;
    assert buffer + (a + b) == buffer + a + b;
    SplitGoesOn(buffer + a, b);
    assert (s[..n] + t)[..n + m] == s[..n] + t[..m];
    NameGoesOn(s[..n], t[..m], m, pending, trim);
    EventsGoOn(s[..n], t[..m], m, pending, trim, decode);
  }

  ghost predicate StartsWith(line: string, start: string) {
    exists rest :: line == start + rest
  }

  lemma OneLine<D>(line: string, pending: string, trim: string -> string, decode: string -> Option<D>)
    requires '\n' !in line
    ensures Parse(line + "\n", "", pending, trim, decode) ==
            Parsed(EventsUpTo([line], 1, pending, trim, decode), "", NameAt([line], 1, pending, trim))
  {
    hide EventsUpTo, NameAt;
    assert "" + (line + "\n") == line + "\n";
    NoNewlineNoSplit(line);
    SplitAppend(line, '\n');
    hide Split;
    assert [line] + [""] == [line, ""] && [line, ""][..1] == [line];
  }

  /** A line that names the event. */
  lemma EventLine<D>(name: string, pending: string, trim: string -> string, decode: string -> Option<D>)
    requires '\n' !in name
    ensures Parse("event: " + name + "\n", "", pending, trim, decode) == Parsed([], "", trim(name))
  {
    hide Parse;
    var line := "event: " + name;
    assert line[..7] == "event: " && line[7..] == name;
    OneLine(line, pending, trim, decode);
    assert [line][0] == line;
  }

  /** A line of data under the name in force. */
  lemma DataLine<D>(payload: string, pending: string, trim: string -> string, decode: string -> Option<D>)
    requires '\n' !in payload
    ensures Parse("data: " + payload + "\n", "", pending, trim, decode) ==
            Parsed(match decode(payload) case None => [] case Some(data) => [Event(pending, data)], "", pending)
  {
    hide Parse;
    var line := "data: " + payload;
    assert line[..6] == "data: " && line[6..] == payload && line[0] == 'd';
    OneLine(line, pending, trim, decode);
    assert [line][0] == line && !IsEvent(line) && IsData(line);
    assert EventsUpTo([line], 0, pending, trim, decode) == [] && NameAt([line], 0, pending, trim) == pending;
  }

  /** Any other line: a blank one ends the event, the rest is ignored. */
  lemma OtherLine<D>(line: string, pending: string, trim: string -> string, decode: string -> Option<D>)
    requires '\n' !in line && !StartsWith(line, "event: ") && !StartsWith(line, "data: ")
    ensures Parse(line + "\n", "", pending, trim, decode) == Parsed([], "", if trim(line) == "" then "" else pending)
  {
    hide Parse;
    forall start: string | start <= line ensures StartsWith(line, start) {
      assert line == start + line[|start|..];
    }
    assert !IsEvent(line) && !IsData(line);
    OneLine(line, pending, trim, decode);
    assert [line][0] == line;
    assert EventsUpTo([line], 0, pending, trim, decode) == [] && NameAt([line], 0, pending, trim) == pending;
  }

  /** However the network cuts the stream, the events and the final state are those of one call on all of it. */
  lemma {:induction false} ChunkingDoesNotMatter<D>(chunks: seq<string>, buffer: string, pending: string,
      trim: string -> string, decode: string -> Option<D>)
    requires '\n' !in buffer
    ensures Feed(chunks, buffer, pending, trim, decode) == Parse(Concat(chunks), buffer, pending, trim, decode)
  {
    hide Parse;
    if chunks == [] {
      assert Concat(chunks) == "";
      assert Parse("", buffer, pending, trim, decode) == Parsed([], buffer, pending) by {
        NothingToParse(buffer, pending, trim, decode);
      }
    } else {
      var front := chunks[..|chunks| - 1];
      ChunkingDoesNotMatter(front, buffer, pending, trim, decode);
      ParseGoesOn(Concat(front), chunks[|chunks| - 1], buffer, pending, trim, decode);
    }
  }

  lemma NothingToParse<D>(buffer: string, pending: string, trim: string -> string, decode: string -> Option<D>)
    requires '\n' !in buffer
    ensures Parse("", buffer, pending, trim, decode) == Parsed([], buffer, pending)
  {
    NoNewlineNoSplit(buffer);
    assert buffer + "" == buffer;
  }

  /** Parse one network chunk. */
  method ParseSseLines<D>(chunk: string, buffer: string, pending: string, trim: string -> string,
      decode: string -> Option<D>)
    returns (r: Parsed<D>)
    ensures r == Parse(chunk, buffer, pending, trim, decode)
  {
    var pieces := Split(buffer + chunk);
    var n: nat := |pieces| - 1;
    var lines, remaining := pieces[..n], pieces[n];
    hide Split;
    var events: seq<Event<D>> := [];
    var current := pending;
    for k := 0 to |lines|
      invariant events == EventsUpTo(lines, k, pending, trim, decode)
      invariant current == NameAt(lines, k, pending, trim)
    {
      var line := lines[k];
      if EVENT <= line {
        current := trim(line[7..]);
      } else if DATA <= line {
        var payload := decode(line[6..]);
        if payload.Some? {
          events := events + [Event(current, payload.value)];
        }
      } else if trim(line) == "" {
        current := "";
      }
    }
    r := Parsed(events, remaining, current);
  }
}
