/**
 The size-rotating log writer over a directory in which any removal, rename, reopen or append may
 fail.

 The directory maps slots to contents: slot 0 is the current file, slot `j` the file with suffix
 `.j`.  Nobody else touches these files.  The writer never looks at the bytes, so they are abstract.
 */
module RotatingLog {
  import opened Common

  type Byte(==, !new)

  type Directory = map<nat, seq<Byte>>

  /** At least two files are kept, the current one included. */
  datatype Config = Config(maxSize: nat, maxFiles: nat)

  /** What goes wrong during one write: removals by slot, renames by target slot, the reopen, and an
      append that stops after so many bytes. */
  datatype Faults = Faults(removals: set<nat>, renames: set<nat>, reopen: bool, append: Option<nat>)

  const NoFaults := Faults({}, {}, false, None)

  /** `open` is false once the current file could not be reopened: from then on events are dropped. */
  datatype State = State(files: Directory, open: bool, written: nat)

  // ---------------------------------------------------------------------------------------------
  // The steps
  // ---------------------------------------------------------------------------------------------

  /** Remove the files numbered `maxFiles` and above, as far as the file system lets us. */
  function CleanStale(files: Directory, maxFiles: nat, failing: set<nat>): Directory {
    map slot | slot in files && (slot < maxFiles || slot in failing) :: files[slot]
  }

  function Rename(files: Directory, from: nat, to: nat): Directory
    requires from in files
  {
    files[to := files[from]] - {from}
  }

  datatype Shifted = Shifted(ok: bool, files: Directory)

  /** Move `.i-1` to `.i`, then `.i-2` to `.i-1`, down to `.1` to `.2`; stop at the first failure. */
  function Shift(files: Directory, i: nat, failing: set<nat>): Shifted
    decreases i
  {
    if i < 2 then Shifted(true, files)
    else if i - 1 !in files then Shift(files, i - 1, failing)
    else if i in failing then Shifted(false, files)
    else Shift(Rename(files, i - 1, i), i - 1, failing)
  }

  function Rotate(s: State, config: Config, faults: Faults): State
    requires config.maxFiles >= 2
  {
    var Shifted(ok, files) :=
        Shift(CleanStale(s.files, config.maxFiles, faults.removals), config.maxFiles - 1, faults.renames);
    if !ok || 0 !in files || 1 in faults.renames then s.(files := files)
    else if faults.reopen then State(Rename(files, 0, 1), false, s.written)
    else State(Rename(files, 0, 1)[0 := []], true, 0)
  }

  /** Opening creates the current file if there is none; `None` if that fails. */
  function Open(files: Directory, config: Config, removals: set<nat>, openFails: bool,
      lengthUnknown: bool): Option<State> {
    var kept := CleanStale(files, config.maxFiles, removals);
    if openFails then None
    else Some(State(kept[0 := Content(kept, 0)], true, if lengthUnknown then 0 else |Content(kept, 0)|))
  }

  /** Rotate first if the event would cross the limit. */
  function RotateIfFull(s: State, config: Config, length: nat, faults: Faults): State
    requires config.maxFiles >= 2
  {
    if s.open && s.written + length > config.maxSize then Rotate(s, config, faults) else s
  }

  function Content(files: Directory, slot: nat): seq<Byte> {
    if slot in files then files[slot] else []
  }

  /** The bytes of an event that reach the file. */
  function Appended(event: seq<Byte>, faults: Faults): seq<Byte> {
    if faults.append.Some? && faults.append.value < |event| then event[..faults.append.value] else event
  }

  function Append(s: State, event: seq<Byte>, faults: Faults): State {
    if !s.open then s
    else s.(files := s.files[0 := Content(s.files, 0) + Appended(event, faults)],
            written := if faults.append.Some? then s.written else s.written + |event|)
  }

  function Write(s: State, config: Config, event: seq<Byte>, faults: Faults): State
    requires config.maxFiles >= 2
  {
    Append(RotateIfFull(s, config, |event|, faults), event, faults)
  }

  /** The bytes of an event that the writer accepts: none once it has given up. */
  function Accepted(s: State, config: Config, event: seq<Byte>, faults: Faults): seq<Byte>
    requires config.maxFiles >= 2
  {
    if RotateIfFull(s, config, |event|, faults).open then Appended(event, faults) else []
  }

  // ---------------------------------------------------------------------------------------------
  // Reading the log back
  // ---------------------------------------------------------------------------------------------

  /** The files from suffix `.hi` down to `.1`, then the current file. */
  function ReadDown(files: Directory, hi: nat): seq<Byte> {
    if hi == 0 then Content(files, 0) else Content(files, hi) + ReadDown(files, hi - 1)
  }

  ghost predicate IsSuffix(s: seq<Byte>, stream: seq<Byte>) {
    |s| <= |stream| && stream[|stream| - |s|..] == s
  }

  /** What a rotation overwrites: the oldest kept file, when the next one is moved onto it. */
  function Overwritten(files: Directory, config: Config, faults: Faults): seq<Byte>
    requires config.maxFiles >= 2
  {
    var top := config.maxFiles - 1;
    if top - 1 in files && top !in faults.renames then Content(files, top) else []
  }

  lemma {:induction false} ReadDownSame(a: Directory, b: Directory, hi: nat)
    requires forall slot: nat | slot <= hi :: Content(a, slot) == Content(b, slot)
    ensures ReadDown(a, hi) == ReadDown(b, hi)
    decreases hi
  {
    if hi > 0 {
      ReadDownSame(a, b, hi - 1);
    }
  }

  /** Shifting overwrites at most the topmost slot, whatever fails, and touches nothing above it. */
  lemma {:induction false} ShiftReads(files: Directory, i: nat, failing: set<nat>)
    ensures var shifted := Shift(files, i, failing).files;
            && ReadDown(files, i) ==
               (if i >= 2 && i - 1 in files && i !in failing then Content(files, i) else []) + ReadDown(shifted, i)
            && (forall slot: nat | slot > i :: slot in shifted <==> slot in files)
            && (forall slot: nat | slot > i && slot in files :: shifted[slot] == files[slot])
            && Content(shifted, 0) == Content(files, 0) && (0 in shifted <==> 0 in files)
            && (Shift(files, i, failing).ok && i >= 2 ==> 1 !in shifted)
    decreases i
  {
    if i >= 2 {
      if i - 1 !in files {
        ShiftReads(files, i - 1, failing);
      } else if i !in failing {
        var moved := Rename(files, i - 1, i);
        ShiftReads(moved, i - 1, failing);
        ReadDownBelow(files, moved, i);
      }
    }
  }

  lemma ReadDownBelow(files: Directory, moved: Directory, i: nat)
    requires i >= 2 && i - 1 in files && moved == Rename(files, i - 1, i)
    ensures ReadDown(files, i - 1) == files[i - 1] + ReadDown(moved, i - 1)
  {
    ReadDownSame(files, moved, i - 2);
  }

  /** A rotation loses what it overwrites and keeps all the rest in order, wherever it is abandoned. */
  lemma RotateReads(s: State, config: Config, faults: Faults)
    requires config.maxFiles >= 2
    ensures ReadDown(s.files, config.maxFiles - 1)
            == Overwritten(s.files, config, faults) + ReadDown(Rotate(s, config, faults).files, config.maxFiles - 1)
    ensures forall slot: nat | slot >= config.maxFiles ::
              Content(Rotate(s, config, faults).files, slot) ==
                  Content(CleanStale(s.files, config.maxFiles, faults.removals), slot)
  {
    var top := config.maxFiles - 1;
    var kept := CleanStale(s.files, config.maxFiles, faults.removals);
    ReadDownSame(s.files, kept, top);
    ShiftReads(kept, top, faults.renames);
    var Shifted(ok, files) := Shift(kept, top, faults.renames);
    if ok && 0 in files && 1 !in faults.renames {
      BaseMoves(files, top);
      var moved := Rename(files, 0, 1);
      ReadDownSame(moved, moved[0 := []], top);
    }
  }

  lemma {:induction false} BaseMoves(files: Directory, hi: nat)
    requires 0 in files && hi >= 1
    ensures ReadDown(files, hi) ==
            (if hi == 1 then Content(files, 1) + ReadDown(Rename(files, 0, 1), 1) else ReadDown(files, hi))
    ensures hi > 1 && 1 !in files ==> ReadDown(files, hi) == ReadDown(Rename(files, 0, 1), hi)
    decreases hi
  {
    var moved := Rename(files, 0, 1);
    assert ReadDown(moved, 1) == files[0] + [] && ReadDown(files, 1) == Content(files, 1) + files[0];
    if hi > 2 {
      BaseMoves(files, hi - 1);
    }
  }

  lemma {:induction false} AppendReads(files: Directory, hi: nat, more: seq<Byte>)
    ensures ReadDown(files[0 := Content(files, 0) + more], hi) == ReadDown(files, hi) + more
    decreases hi
  {
    if hi > 0 {
      AppendReads(files, hi - 1, more);
    }
  }

  /** Opening removes the files numbered `maxFiles` and above as far as that goes, makes a missing current file, and
      counts it, or starts at zero if its length cannot be told. */
  lemma OpenInCases(files: Directory, config: Config, removals: set<nat>, openFails: bool, lengthUnknown: bool)
    requires config.maxFiles >= 2
    ensures Open(files, config, removals, openFails, lengthUnknown).None? <==> openFails
    ensures !openFails ==>
              var s := Open(files, config, removals, openFails, lengthUnknown).value;
              && s.open && 0 in s.files
              && (forall slot: nat | slot > 0 ::
                    slot in s.files <==> slot in files && (slot < config.maxFiles || slot in removals))
              && (forall slot: nat | slot in files && slot in s.files :: s.files[slot] == files[slot])
              && (0 !in files ==> s.files[0] == [])
              && s.written == if lengthUnknown then 0 else |s.files[0]|
  {
  }

  // ---------------------------------------------------------------------------------------------
  // One write in which anything may fail
  // ---------------------------------------------------------------------------------------------

  /** No rename of a rotation fails: neither of a suffixed file that is there, nor of the current one. */
  ghost predicate RenamesGo(files: Directory, config: Config, faults: Faults) {
    && (forall i: nat | 2 <= i < config.maxFiles && i - 1 in files :: i !in faults.renames)
    && 0 in files && 1 !in faults.renames
  }

  lemma {:induction false} ShiftGoes(files: Directory, i: nat, failing: set<nat>)
    ensures Shift(files, i, failing).ok <==> forall j: nat | 2 <= j <= i && j - 1 in files :: j !in failing
    decreases i
  {
    if i >= 2 {
      if i - 1 !in files {
        ShiftGoes(files, i - 1, failing);
      } else if i !in failing {
        var moved := Rename(files, i - 1, i);
        assert forall j: nat | j < i - 1 :: j in moved <==> j in files;
        ShiftGoes(moved, i - 1, failing);
      }
    }
  }

  /** The part of an event that the file system takes. */
  ghost predicate Reaches(taken: seq<Byte>, event: seq<Byte>, faults: Faults) {
    && taken <= event
    && |taken| == if faults.append.Some? && faults.append.value < |event| then faults.append.value else |event|
  }

  lemma AppendedReaches(event: seq<Byte>, faults: Faults, taken: seq<Byte>)
    ensures Reaches(taken, event, faults) <==> taken == Appended(event, faults)
  {
  }

  lemma RotationGoes(s: State, config: Config, faults: Faults)
    requires config.maxFiles >= 2 && 0 in s.files
    ensures var r := Rotate(s, config, faults);
            && (RenamesGo(s.files, config, faults) && faults.reopen ==> !r.open)
            && (RenamesGo(s.files, config, faults) && !faults.reopen ==>
                  r.open && r.written == 0 && 0 in r.files && r.files[0] == [])
            && (!RenamesGo(s.files, config, faults) ==>
                  r.open == s.open && r.written == s.written && 0 in r.files && r.files[0] == s.files[0])
  {
    var kept := CleanStale(s.files, config.maxFiles, faults.removals);
    ShiftGoes(kept, config.maxFiles - 1, faults.renames);
    ShiftReads(kept, config.maxFiles - 1, faults.renames);
    hide ReadDown, Shift;
    assert forall i: nat | i < config.maxFiles :: i in kept <==> i in s.files;
  }

  /** What one write does to the current file and the counter.  An event is dropped only by a writer that has given
      up, and a writer gives up only where all renames of a rotation go through and the new file does not open: a
      failed rename keeps the old file, over the limit if need be.  The counter passes over a failed append. */
  lemma WriteInCases(s: State, config: Config, event: seq<Byte>, faults: Faults)
    requires config.maxFiles >= 2 && (s.open ==> 0 in s.files)
    ensures var s', taken := Write(s, config, event, faults), Accepted(s, config, event, faults);
            var moves := s.written + |event| > config.maxSize && RenamesGo(s.files, config, faults);
            && (!s.open ==> s' == s && taken == [])
            && (s.open && moves && faults.reopen ==> !s'.open && taken == [])
            && (s.open && !(moves && faults.reopen) ==>
                  && s'.open && 0 in s'.files && Reaches(taken, event, faults)
                  && s'.files[0] == (if moves then taken else s.files[0] + taken)
                  && s'.written == (if moves then 0 else s.written) + if faults.append.None? then |event| else 0)
  {
    hide Rotate, RenamesGo, Reaches;
    if s.open {
      RotationGoes(s, config, faults);
      AppendedReaches(event, faults, Appended(event, faults));
      assert [] + Appended(event, faults) == Appended(event, faults);
    }
  }

  // ---------------------------------------------------------------------------------------------
  // Runs in which anything may fail
  // ---------------------------------------------------------------------------------------------

  datatype Attempt = Attempt(event: seq<Byte>, faults: Faults)

  function Run(s: State, config: Config, attempts: seq<Attempt>): State
    requires config.maxFiles >= 2
    decreases |attempts|
  {
    if attempts == [] then s
    else Run(Write(s, config, attempts[0].event, attempts[0].faults), config, attempts[1..])
  }

  /** All the bytes accepted over a run. */
  function Stream(s: State, config: Config, attempts: seq<Attempt>): seq<Byte>
    requires config.maxFiles >= 2
    decreases |attempts|
  {
    if attempts == [] then []
    else Accepted(s, config, attempts[0].event, attempts[0].faults)
         + Stream(Write(s, config, attempts[0].event, attempts[0].faults), config, attempts[1..])
  }

  lemma SuffixOfSuffix(lost: seq<Byte>, s: seq<Byte>, stream: seq<Byte>)
    requires IsSuffix(lost + s, stream)
    ensures IsSuffix(s, stream)
  {
    assert (lost + s)[|lost|..] == s;
  }

  lemma SuffixExtends(s: seq<Byte>, stream: seq<Byte>, more: seq<Byte>)
    requires IsSuffix(s, stream)
    ensures IsSuffix(s + more, stream + more)
  {
    assert stream == stream[..|stream| - |s|] + s;
    assert stream + more == stream[..|stream| - |s|] + (s + more);
  }

  lemma WriteKeepsSuffix(s: State, config: Config, event: seq<Byte>, faults: Faults, stream: seq<Byte>)
    requires config.maxFiles >= 2 && IsSuffix(ReadDown(s.files, config.maxFiles - 1), stream)
    ensures IsSuffix(ReadDown(Write(s, config, event, faults).files, config.maxFiles - 1),
                     stream + Accepted(s, config, event, faults))
  {
    var top, rotated := config.maxFiles - 1, RotateIfFull(s, config, |event|, faults);
    if rotated != s {
      RotateReads(s, config, faults);
      SuffixOfSuffix(Overwritten(s.files, config, faults), ReadDown(rotated.files, top), stream);
    }
    if rotated.open {
      AppendReads(rotated.files, top, Appended(event, faults));
      SuffixExtends(ReadDown(rotated.files, top), stream, Appended(event, faults));
    } else {
      assert stream + [] == stream;
    }
  }

  /** Over any run, whatever fails and wherever: the kept files, oldest first, hold exactly the last
      bytes of what was on disk followed by what was accepted, in order and without a gap. */
  lemma {:induction false} RunReadsSuffix(s: State, config: Config, attempts: seq<Attempt>, stream: seq<Byte>)
    requires config.maxFiles >= 2 && IsSuffix(ReadDown(s.files, config.maxFiles - 1), stream)
    ensures IsSuffix(ReadDown(Run(s, config, attempts).files, config.maxFiles - 1),
                     stream + Stream(s, config, attempts))
    decreases |attempts|
  {
    if attempts == [] {
      assert stream + [] == stream;
    } else {
      var Attempt(event, faults) := attempts[0];
      WriteKeepsSuffix(s, config, event, faults, stream);
      var accepted, next := Accepted(s, config, event, faults), Write(s, config, event, faults);
      RunReadsSuffix(next, config, attempts[1..], stream + accepted);
      assert stream + accepted + Stream(next, config, attempts[1..]) == stream + Stream(s, config, attempts);
    }
  }

  // ---------------------------------------------------------------------------------------------
  // Files that cleaning failed to remove
  // ---------------------------------------------------------------------------------------------

  /** The non-empty file at slot `y` does not outlive a rotation: a stale file is removed, or the
      oldest kept one overwritten. */
  predicate Lost(s: State, config: Config, faults: Faults, y: nat)
    requires config.maxFiles >= 2
  {
    if y >= config.maxFiles then y in s.files && s.files[y] != [] && y !in faults.removals
    else y == config.maxFiles - 1 && Overwritten(s.files, config, faults) != []
  }

  /** The non-empty stale file at slot `x` cannot be removed. */
  predicate Survives(s: State, config: Config, faults: Faults, x: nat) {
    x >= config.maxFiles && x in s.files && s.files[x] != [] && x in faults.removals
  }

  /** Up to slot `h`, something newer than a surviving stale file is lost. */
  ghost predicate LeavesHole(s: State, config: Config, faults: Faults, h: nat)
    requires config.maxFiles >= 2
  {
    exists x: nat, y: nat :: y < x <= h && Survives(s, config, faults, x) && Lost(s, config, faults, y)
  }

  ghost predicate LosesSomething(s: State, config: Config, faults: Faults, h: nat)
    requires config.maxFiles >= 2
  {
    exists y: nat :: y <= h && Lost(s, config, faults, y)
  }

  lemma HoleStep(s: State, config: Config, faults: Faults, h: nat)
    requires config.maxFiles >= 2 && h > 0
    ensures LeavesHole(s, config, faults, h) <==>
            LeavesHole(s, config, faults, h - 1) ||
                (Survives(s, config, faults, h) && LosesSomething(s, config, faults, h - 1))
    ensures LosesSomething(s, config, faults, h) <==>
            LosesSomething(s, config, faults, h - 1) || Lost(s, config, faults, h)
  {
  }

  /** The numbers from `lo` up to, not including, `hi`. */
  function Range(lo: nat, hi: nat): (r: seq<nat>)
    requires lo <= hi
    ensures |r| == hi - lo && forall i | 0 <= i < |r| :: r[i] == lo + i
  {
    seq(hi - lo, i requires 0 <= i < hi - lo => lo + i)
  }

  function ShiftedBy(positions: seq<nat>, c: nat): (r: seq<nat>)
    ensures |r| == |positions| && forall i | 0 <= i < |r| :: r[i] == positions[i] + c
  {
    seq(|positions|, i requires 0 <= i < |positions| => positions[i] + c)
  }

  /** Where the bytes that outlive a rotation stood in what slots `h` down to 0 read before it: all but
      what is overwritten of the files within the limit, and the stale files that cannot be removed. */
  function Kept(s: State, config: Config, faults: Faults, h: nat): seq<nat>
    requires config.maxFiles >= 2 && h >= config.maxFiles - 1
    decreases h
  {
    if h == config.maxFiles - 1 then
      RotateReads(s, config, faults);
      Range(|Overwritten(s.files, config, faults)|, |ReadDown(s.files, h)|)
    else
      var c := |Content(s.files, h)|;
      (if h in faults.removals then Range(0, c) else []) + ShiftedBy(Kept(s, config, faults, h - 1), c)
  }

  /** Positions below `n`, in order. */
  ghost predicate Ascending(positions: seq<nat>, n: nat) {
    && (forall i | 0 <= i < |positions| :: positions[i] < n)
    && (forall i, j | 0 <= i < j < |positions| :: positions[i] < positions[j])
  }

  /** `after` consists of the bytes of `before` at these positions. */
  ghost predicate Picks(after: seq<Byte>, before: seq<Byte>, positions: seq<nat>) {
    && |after| == |positions|
    && forall i | 0 <= i < |positions| :: positions[i] < |before| && after[i] == before[positions[i]]
  }

  /** The last positions below `n`, none missing between them. */
  ghost predicate IsTail(positions: seq<nat>, n: nat) {
    |positions| <= n && forall i | 0 <= i < |positions| :: positions[i] == n - |positions| + i
  }

  /** Which positions are kept does not depend on the bytes, only on which files there are and how long. */
  lemma {:induction false} KeptIgnoresBytes(s: State, t: State, config: Config, faults: Faults, h: nat)
    requires config.maxFiles >= 2 && h >= config.maxFiles - 1 && s.files.Keys == t.files.Keys
    requires forall slot | slot in s.files :: |s.files[slot]| == |t.files[slot]|
    ensures Kept(s, config, faults, h) == Kept(t, config, faults, h)
    decreases h
  {
    SameLengthsRead(s.files, t.files, h);
    if h >= config.maxFiles {
      KeptUnfolds(s, config, faults, h);
      KeptUnfolds(t, config, faults, h);
      hide Kept;
      KeptIgnoresBytes(s, t, config, faults, h - 1);
    }
  }

  lemma {:induction false} SameLengthsRead(a: Directory, b: Directory, hi: nat)
    requires a.Keys == b.Keys && forall slot | slot in a :: |a[slot]| == |b[slot]|
    ensures |ReadDown(a, hi)| == |ReadDown(b, hi)|
    decreases hi
  {
    if hi > 0 {
      SameLengthsRead(a, b, hi - 1);
    }
  }

  lemma StaleSlot(s: State, config: Config, faults: Faults, h: nat)
    requires config.maxFiles >= 2 && h >= config.maxFiles
    ensures Content(Rotate(s, config, faults).files, h) == if h in faults.removals then Content(s.files, h) else []
    ensures Survives(s, config, faults, h) <==> Content(s.files, h) != [] && h in faults.removals
    ensures Lost(s, config, faults, h) <==> Content(s.files, h) != [] && h !in faults.removals
  {
    hide Rotate;
    RotateReads(s, config, faults);
  }

  /** A rotation leaves exactly the bytes at the kept positions, in order. */
  lemma {:induction false} RotationPicks(s: State, config: Config, faults: Faults, h: nat)
    requires config.maxFiles >= 2 && h >= config.maxFiles - 1
    ensures Ascending(Kept(s, config, faults, h), |ReadDown(s.files, h)|)
    ensures Picks(ReadDown(Rotate(s, config, faults).files, h), ReadDown(s.files, h), Kept(s, config, faults, h))
    decreases h
  {
    hide Rotate, Overwritten, CleanStale;
    RotateReads(s, config, faults);
    if h >= config.maxFiles {
      RotationPicks(s, config, faults, h - 1);
      StaleSlot(s, config, faults, h);
      hide Ascending, Picks, Kept;
      var c := Content(s.files, h);
      var rest, rest' := ReadDown(s.files, h - 1), ReadDown(Rotate(s, config, faults).files, h - 1);
      PickAbove(c, h in faults.removals, rest', rest, Kept(s, config, faults, h - 1));
      KeptUnfolds(s, config, faults, h);
    }
  }

  lemma KeptUnfolds(s: State, config: Config, faults: Faults, h: nat)
    requires config.maxFiles >= 2 && h >= config.maxFiles
    ensures Kept(s, config, faults, h) ==
            (if h in faults.removals then Range(0, |Content(s.files, h)|) else [])
            + ShiftedBy(Kept(s, config, faults, h - 1), |Content(s.files, h)|)
  {
  }

  /** One slot more, its content `c` kept or not, on top of what is read below it. */
  lemma PickAbove(c: seq<Byte>, kept: bool, after: seq<Byte>, before: seq<Byte>, positions: seq<nat>)
    requires Ascending(positions, |before|) && Picks(after, before, positions)
    ensures var more := (if kept then Range(0, |c|) else []) + ShiftedBy(positions, |c|);
            Ascending(more, |c + before|) && Picks((if kept then c else []) + after, c + before, more)
  {
  }

  ghost predicate TailIffNoHole(s: State, config: Config, faults: Faults, h: nat)
    requires config.maxFiles >= 2 && h >= config.maxFiles - 1
  {
    var kept, n := Kept(s, config, faults, h), |ReadDown(s.files, h)|;
    && |kept| <= n
    && (|kept| == n ==> IsTail(kept, n))
    && (|kept| == n <==> !LosesSomething(s, config, faults, h))
    && (IsTail(kept, n) <==> !LeavesHole(s, config, faults, h))
  }

  /** The kept positions have no gap exactly when nothing newer than a surviving stale file is lost. */
  lemma {:induction false} KeptIsTailIff(s: State, config: Config, faults: Faults, h: nat)
    requires config.maxFiles >= 2 && h >= config.maxFiles - 1
    ensures TailIffNoHole(s, config, faults, h)
    decreases h
  {
    hide TailIffNoHole;
    if h == config.maxFiles - 1 {
      NoStaleFiles(s, config, faults);
    } else {
      KeptIsTailIff(s, config, faults, h - 1);
      TailIffStep(s, config, faults, h);
    }
  }

  lemma TailIffStep(s: State, config: Config, faults: Faults, h: nat)
    requires config.maxFiles >= 2 && h >= config.maxFiles && TailIffNoHole(s, config, faults, h - 1)
    ensures TailIffNoHole(s, config, faults, h)
  {
    hide Kept, LeavesHole, LosesSomething, Survives, Lost, IsTail, Rotate;
    var c, rest := Content(s.files, h), ReadDown(s.files, h - 1);
    assert |ReadDown(s.files, h)| == |c| + |rest|;
    hide ReadDown;
    StaleSlot(s, config, faults, h);
    HoleStep(s, config, faults, h);
    KeptUnfolds(s, config, faults, h);
    TailAbove(|c|, h in faults.removals, Kept(s, config, faults, h - 1), |rest|);
    NothingLostNoHole(s, config, faults, h - 1);
  }

  lemma NothingLostNoHole(s: State, config: Config, faults: Faults, h: nat)
    requires config.maxFiles >= 2
    ensures LeavesHole(s, config, faults, h) ==> LosesSomething(s, config, faults, h)
  {
  }

  lemma NoStaleFiles(s: State, config: Config, faults: Faults)
    requires config.maxFiles >= 2
    ensures TailIffNoHole(s, config, faults, config.maxFiles - 1)
  {
    hide Rotate, Overwritten, ReadDown;
    RotateReads(s, config, faults);
    var top := config.maxFiles - 1;
    assert LosesSomething(s, config, faults, top) <==> Lost(s, config, faults, top);
    assert Kept(s, config, faults, top) == Range(|Overwritten(s.files, config, faults)|, |ReadDown(s.files, top)|);
  }

  lemma TailAbove(c: nat, kept: bool, positions: seq<nat>, n: nat)
    requires |positions| <= n && (|positions| == n ==> IsTail(positions, n))
    ensures var more := (if kept then Range(0, c) else []) + ShiftedBy(positions, c);
            && |more| <= c + n
            && (|more| == c + n ==> IsTail(more, c + n))
            && (|more| == c + n <==> |positions| == n && (kept || c == 0))
            && (IsTail(more, c + n) <==> if kept && c > 0 then |positions| == n else IsTail(positions, n))
  {
    var more := (if kept then Range(0, c) else []) + ShiftedBy(positions, c);
    if kept && c > 0 {
      assert more[0] == 0;
      if |positions| == n {
        assert forall i | 0 <= i < n :: more[c + i] == positions[i] + c;
      }
    } else {
      assert forall i | 0 <= i < |positions| :: more[i] == positions[i] + c;
    }
  }

  ghost predicate Distinct(stream: seq<Byte>) {
    forall i, j | 0 <= i < j < |stream| :: stream[i] != stream[j]
  }

  /** Reading every file, stale ones included, whatever the bytes: a rotation leaves bytes of the log in
      order; they are its last bytes, none missing between them, exactly when nothing newer than an
      irremovable stale file is lost; and then what is read is a suffix
      of the stream still.  When no byte repeats, the hole shows: what is read is no suffix. */
  lemma RotationReadsSuffixIff(s: State, config: Config, faults: Faults, h: nat, stream: seq<Byte>)
    requires config.maxFiles >= 2 && h >= config.maxFiles - 1 && IsSuffix(ReadDown(s.files, h), stream)
    ensures var before, after := ReadDown(s.files, h), ReadDown(Rotate(s, config, faults).files, h);
            && Ascending(Kept(s, config, faults, h), |before|)
            && Picks(after, before, Kept(s, config, faults, h))
            && (IsTail(Kept(s, config, faults, h), |before|) <==> !LeavesHole(s, config, faults, h))
            && (!LeavesHole(s, config, faults, h) ==> IsSuffix(after, stream))
            && (Distinct(stream) && IsSuffix(after, stream) ==> !LeavesHole(s, config, faults, h))
  {
    hide Rotate, ReadDown, LeavesHole, Kept, Ascending, Distinct, IsSuffix;
    var before, after := ReadDown(s.files, h), ReadDown(Rotate(s, config, faults).files, h);
    RotationPicks(s, config, faults, h);
    KeptIsTailIff(s, config, faults, h);
    if !LeavesHole(s, config, faults, h) {
      TailIsSuffix(after, before, Kept(s, config, faults, h), stream);
    }
    if Distinct(stream) && IsSuffix(after, stream) {
      SuffixIsTail(after, before, Kept(s, config, faults, h), stream);
    }
  }

  lemma TailIsSuffix(after: seq<Byte>, before: seq<Byte>, kept: seq<nat>, stream: seq<Byte>)
    requires Picks(after, before, kept) && IsTail(kept, |before|) && IsSuffix(before, stream)
    ensures IsSuffix(after, stream)
  {
    assert after == before[|before| - |after|..];
    assert before == before[..|before| - |after|] + after;
    SuffixOfSuffix(before[..|before| - |after|], after, stream);
  }

  /** Bytes that can be told apart tell where they stood. */
  lemma SuffixIsTail(after: seq<Byte>, before: seq<Byte>, kept: seq<nat>, stream: seq<Byte>)
    requires Picks(after, before, kept) && |kept| <= |before|
    requires IsSuffix(before, stream) && IsSuffix(after, stream) && Distinct(stream)
    ensures IsTail(kept, |before|)
  {
    forall i | 0 <= i < |kept| ensures kept[i] == |before| - |kept| + i {
      assert before[kept[i]] == stream[|stream| - |before| + kept[i]] by {
        assert stream[|stream| - |before|..][kept[i]] == before[kept[i]];
      }
      assert after[i] == stream[|stream| - |after| + i] by {
        assert stream[|stream| - |after|..][i] == after[i];
      }
    }
  }

  /** It happens: two files are kept, a third from an earlier configuration cannot be removed. */
  lemma StaleFileLeavesHole(a: Byte, b: Byte, c: Byte)
    ensures var s := State(map[2 := [a], 1 := [b], 0 := [c]], true, 1);
            var after := Rotate(s, Config(1, 2), NoFaults.(removals := {2}));
            && ReadDown(s.files, 2) == [a, b, c]
            && ReadDown(after.files, 2) == [a, c]
  {
    hide ReadDown;
    var files := map[2 := [a], 1 := [b], 0 := [c]];
    var after := Rotate(State(files, true, 1), Config(1, 2), NoFaults.(removals := {2}));
    assert CleanStale(files, 2, {2}) == files;
    assert Shift(files, 1, {}) == Shifted(true, files);
    assert after.files == Rename(files, 0, 1)[0 := []];
    hide Rotate;
    ReadThree(files, [a], [b], [c]);
    ReadThree(after.files, [a], [c], []);
  }

  lemma ReadThree(files: Directory, two: seq<Byte>, one: seq<Byte>, zero: seq<Byte>)
    requires Content(files, 2) == two && Content(files, 1) == one && Content(files, 0) == zero
    ensures ReadDown(files, 2) == two + one + zero
  {
    assert ReadDown(files, 0) == zero;
    assert ReadDown(files, 1) == one + zero;
    assert ReadDown(files, 2) == two + (one + zero);
  }

  // ---------------------------------------------------------------------------------------------
  // Runs without failures
  // ---------------------------------------------------------------------------------------------

  /** One file's worth of log: what it held when it was started, and the events written to it since. */
  datatype Segment = Segment(inherited: seq<Byte>, events: seq<seq<Byte>>)

  function Joined(events: seq<seq<Byte>>): seq<Byte> {
    if events == [] then [] else Joined(events[..|events| - 1]) + events[|events| - 1]
  }

  function Bytes(segment: Segment): seq<Byte> {
    segment.inherited + Joined(segment.events)
  }

  /** The rule the writer is meant to follow: an event that would cross the limit starts a new segment. */
  function NextSegments(segments: seq<Segment>, maxSize: nat, event: seq<Byte>): (r: seq<Segment>)
    requires segments != []
    ensures r != []
  {
    var last := segments[|segments| - 1];
    if |Bytes(last)| + |event| > maxSize then segments + [Segment([], [event])]
    else segments[..|segments| - 1] + [Segment(last.inherited, last.events + [event])]
  }

  /** Slot `j` holds the segment closed `j` rotations ago, slot 0 the current one. */
  ghost predicate Holds(files: Directory, segments: seq<Segment>, j: nat)
    requires j < |segments|
  {
    j in files && files[j] == Bytes(segments[|segments| - 1 - j])
  }

  /** Every slot within the limit holds its segment, there are no others, and the counter is right. */
  ghost predicate Follows(s: State, config: Config, segments: seq<Segment>) {
    && segments != []
    && s.open && 0 in s.files && s.written == |s.files[0]|
    && (forall slot | slot in s.files :: slot < config.maxFiles)
    && (forall j: nat | j < |segments| && j < config.maxFiles :: Holds(s.files, segments, j))
  }

  /** A file begun by the writer fits the limit or holds exactly one event; a file inherited at open
      fits the limit or was not written to. */
  ghost predicate SizesOk(segments: seq<Segment>, maxSize: nat) {
    forall k | 0 <= k < |segments| ::
      if k > 0 then segments[k].inherited == [] && segments[k].events != []
                    && (|Bytes(segments[k])| <= maxSize || |segments[k].events| == 1)
      else segments[k].events != [] ==> |Bytes(segments[k])| <= maxSize
  }

  lemma {:induction false} ShiftMoves(files: Directory, i: nat)
    ensures Shift(files, i, {}).ok
    ensures var shifted := Shift(files, i, {}).files;
            && (forall j | 1 <= j < i && j in files :: Content(shifted, j + 1) == files[j] && j + 1 in shifted)
            && (forall j: nat | j == 0 || j > i ::
                  (j in shifted <==> j in files) && Content(shifted, j) == Content(files, j))
            && (forall j | j in shifted :: j in files || j <= i)
    decreases i
  {
    if i >= 2 {
      if i - 1 in files {
        var moved := Rename(files, i - 1, i);
        var shifted := Shift(files, i, {}).files;
        ShiftMoves(moved, i - 1);
        assert Content(shifted, i) == Content(moved, i);
        forall j | 1 <= j < i && j in files ensures Content(shifted, j + 1) == files[j] && j + 1 in shifted {
          if j < i - 1 {
            assert j in moved && Content(shifted, j + 1) == moved[j];
          }
        }
      } else {
        ShiftMoves(files, i - 1);
      }
    }
  }

  lemma RotateMoves(s: State, config: Config)
    requires config.maxFiles >= 2 && 0 in s.files && forall slot | slot in s.files :: slot < config.maxFiles
    ensures var after := Rotate(s, config, NoFaults);
            && after.open && after.written == 0 && Content(after.files, 0) == [] && 0 in after.files
            && (forall slot | slot in after.files :: slot < config.maxFiles)
            && (forall j | 0 <= j < config.maxFiles - 1 && j in s.files ::
                  j + 1 in after.files && Content(after.files, j + 1) == s.files[j])
  {
    assert CleanStale(s.files, config.maxFiles, {}) == s.files;
    ShiftMoves(s.files, config.maxFiles - 1);
  }

  /** A write that rotates: the event alone in a new current file, all others as the rotation left them. */
  lemma WriteAfterRotation(s: State, config: Config, event: seq<Byte>)
    requires config.maxFiles >= 2 && s.open && 0 in s.files && s.written + |event| > config.maxSize
    requires forall slot | slot in s.files :: slot < config.maxFiles
    ensures var s', rotated := Write(s, config, event, NoFaults), Rotate(s, config, NoFaults);
            && s'.files == rotated.files[0 := event] && s'.open && s'.written == |event|
  {
    RotateMoves(s, config);
    hide Rotate;
    assert [] + event == event;
  }

  lemma OneEvent(event: seq<Byte>)
    ensures Bytes(Segment([], [event])) == event
  {
    assert [event][..0] == [];
    assert Joined([event]) == Joined([]) + event;
  }

  lemma RotationFollows(s: State, config: Config, segments: seq<Segment>, event: seq<Byte>)
    requires config.maxFiles >= 2 && Follows(s, config, segments) && s.written + |event| > config.maxSize
    ensures Follows(Write(s, config, event, NoFaults), config, segments + [Segment([], [event])])
  {
    RotateMoves(s, config);
    WriteAfterRotation(s, config, event);
    OneEvent(event);
    hide Rotate, Write, Bytes, Joined;
    var next, rotated := segments + [Segment([], [event])], Rotate(s, config, NoFaults);
    var s' := Write(s, config, event, NoFaults);
    forall j: nat | j < |next| && j < config.maxFiles ensures Holds(s'.files, next, j) {
      if j > 0 {
        assert Holds(s.files, segments, j - 1);
        assert next[|next| - 1 - j] == segments[|segments| - j];
        assert Content(rotated.files, j) == s.files[j - 1];
      }
    }
  }

  lemma JoinedAppend(segment: Segment, event: seq<Byte>)
    ensures Bytes(Segment(segment.inherited, segment.events + [event])) == Bytes(segment) + event
  {
    assert (segment.events + [event])[..|segment.events|] == segment.events;
    assert Joined(segment.events + [event]) == Joined(segment.events) + event;
  }

  lemma AppendFollows(s: State, config: Config, segments: seq<Segment>, event: seq<Byte>)
    requires config.maxFiles >= 2 && Follows(s, config, segments) && s.written + |event| <= config.maxSize
    ensures var last := segments[|segments| - 1];
            Follows(Write(s, config, event, NoFaults), config,
                    segments[..|segments| - 1] + [Segment(last.inherited, last.events + [event])])
  {
    var last := segments[|segments| - 1];
    var next := segments[..|segments| - 1] + [Segment(last.inherited, last.events + [event])];
    var s' := Write(s, config, event, NoFaults);
    WriteInPlace(s, config, event);
    hide Write, Holds;
    forall j: nat | j < |next| && j < config.maxFiles ensures Holds(s'.files, next, j) {
      assert Holds(s.files, segments, j) && Holds(s.files, segments, 0);
      StillHolds(s.files, segments, event, j);
    }
  }

  lemma WriteInPlace(s: State, config: Config, event: seq<Byte>)
    requires config.maxFiles >= 2 && s.open && 0 in s.files && s.written + |event| <= config.maxSize
    ensures Write(s, config, event, NoFaults) == State(s.files[0 := s.files[0] + event], true, s.written + |event|)
  {
  }

  lemma StillHolds(files: Directory, segments: seq<Segment>, event: seq<Byte>, j: nat)
    requires j < |segments| && Holds(files, segments, j) && Holds(files, segments, 0)
    ensures var last := segments[|segments| - 1];
            var next := segments[..|segments| - 1] + [Segment(last.inherited, last.events + [event])];
            Holds(files[0 := files[0] + event], next, j)
  {
    hide Bytes;
    JoinedAppend(segments[|segments| - 1], event);
  }

  lemma WriteFollows(s: State, config: Config, segments: seq<Segment>, event: seq<Byte>)
    requires config.maxFiles >= 2 && Follows(s, config, segments)
    ensures Follows(Write(s, config, event, NoFaults), config, NextSegments(segments, config.maxSize, event))
  {
    assert Holds(s.files, segments, 0);
    hide Write, Bytes;
    if s.written + |event| > config.maxSize {
      RotationFollows(s, config, segments, event);
    } else {
      AppendFollows(s, config, segments, event);
    }
  }

  lemma NextSizesOk(segments: seq<Segment>, maxSize: nat, event: seq<Byte>)
    requires segments != [] && SizesOk(segments, maxSize)
    ensures SizesOk(NextSegments(segments, maxSize, event), maxSize)
  {
    var last := segments[|segments| - 1];
    var events := last.events + [event];
    assert events[..|events| - 1] == last.events;
    assert Bytes(Segment(last.inherited, events)) == Bytes(last) + event;
  }

  function WriteAll(s: State, config: Config, events: seq<seq<Byte>>): State
    requires config.maxFiles >= 2
    decreases |events|
  {
    if events == [] then s else WriteAll(Write(s, config, events[0], NoFaults), config, events[1..])
  }

  function AllSegments(segments: seq<Segment>, maxSize: nat, events: seq<seq<Byte>>): seq<Segment>
    requires segments != []
    decreases |events|
  {
    if events == [] then segments else AllSegments(NextSegments(segments, maxSize, events[0]), maxSize, events[1..])
  }

  lemma {:induction false} RunFollows(s: State, config: Config, segments: seq<Segment>, events: seq<seq<Byte>>)
    requires config.maxFiles >= 2 && Follows(s, config, segments) && SizesOk(segments, config.maxSize)
    ensures Follows(WriteAll(s, config, events), config, AllSegments(segments, config.maxSize, events))
    ensures SizesOk(AllSegments(segments, config.maxSize, events), config.maxSize)
    decreases |events|
  {
    if events != [] {
      WriteFollows(s, config, segments, events[0]);
      NextSizesOk(segments, config.maxSize, events[0]);
      RunFollows(Write(s, config, events[0], NoFaults), config, NextSegments(segments, config.maxSize, events[0]),
          events[1..]);
    }
  }

  /** From any directory, a run without failures: the counter is the current file's length, at most
      `maxFiles` files exist, and each slot holds the segment it should. */
  lemma FailureFreeRun(files: Directory, config: Config, events: seq<seq<Byte>>)
    requires config.maxFiles >= 2
    ensures var started := Open(files, config, {}, false, false).value;
            var segments := AllSegments([Segment(Content(files, 0), [])], config.maxSize, events);
            var s := WriteAll(started, config, events);
            && Follows(s, config, segments) && SizesOk(segments, config.maxSize)
            && |s.files| <= config.maxFiles
  {
    var started := Open(files, config, {}, false, false).value;
    var first := Segment(Content(files, 0), []);
    assert Bytes(first) == Content(files, 0);
    RunFollows(started, config, [first], events);
    SlotsBounded(WriteAll(started, config, events).files, config.maxFiles);
  }

  lemma {:induction false} SlotsBounded(files: Directory, n: nat)
    requires forall slot | slot in files :: slot < n
    ensures |files| <= n
    decreases n
  {
    if n == 0 {
      assert files == map[];
    } else {
      SlotsBounded(files - {n - 1}, n - 1);
      assert files.Keys <= (files - {n - 1}).Keys + {n - 1};
    }
  }
}
