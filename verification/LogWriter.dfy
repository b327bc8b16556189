/** The log writer as an object: its methods take exactly the steps of `RotatingLog`. */
module LogWriter {
  import opened Common
  import opened RotatingLog

  lemma CleanOne(files: Directory, rest: set<nat>, slot: nat, maxFiles: nat, failing: set<nat>)
    requires slot in rest && slot in files
    ensures CleanStale(if slot >= maxFiles && slot !in failing then files - {slot} else files, maxFiles, failing)
            == CleanStale(files, maxFiles, failing)
  {
  }

  class RotatingFileWriter {
    const config: Config
    var files: Directory
    var open: bool
    var written: nat
    var warnEmitted: bool
    /** What was on disk after opening, followed by all bytes accepted since. */
    ghost var stream: seq<Byte>

    ghost function View(): State
      reads this
    {
      State(files, open, written)
    }

    /** The kept files always hold a suffix of the stream, and the counter never exceeds the file. */
    ghost predicate Valid()
      reads this
    {
      && config.maxFiles >= 2
      && IsSuffix(ReadDown(files, config.maxFiles - 1), stream)
      && (open ==> 0 in files && written <= |files[0]|)
    }

    /** Open on an existing directory; the creation of the current file has succeeded. */
    constructor (config: Config, files: Directory, removals: set<nat>, lengthUnknown: bool)
      requires config.maxFiles >= 2
      ensures Valid() && this.config == config
      ensures Some(View()) == Open(files, config, removals, false, lengthUnknown)
      ensures stream == ReadDown(this.files, config.maxFiles - 1)
    {
      this.config := config;
      var kept := CleanStale(files, config.maxFiles, removals);
      this.files := kept[0 := Content(kept, 0)];
      this.open := true;
      this.written := if lengthUnknown then 0 else |Content(kept, 0)|;
      this.warnEmitted := false;
      this.stream := ReadDown(kept[0 := Content(kept, 0)], config.maxFiles - 1);
    }

    method CleanStaleFiles(failing: set<nat>)
      modifies this`files
      ensures files == CleanStale(old(files), config.maxFiles, failing)
    {
      var rest := files.Keys;
      while rest != {}
        invariant rest <= files.Keys
        invariant CleanStale(files, config.maxFiles, failing) == CleanStale(old(files), config.maxFiles, failing)
        invariant forall slot | slot in files.Keys - rest :: slot < config.maxFiles || slot in failing
      {
        var slot :| slot in rest;
        CleanOne(files, rest, slot, config.maxFiles, failing);
        rest := rest - {slot};
        if slot >= config.maxFiles && slot !in failing {
          files := files - {slot};
        }
      }
    }

    method WarnOnce()
      modifies this`warnEmitted
      ensures warnEmitted
    {
      warnEmitted := true;
    }

    /** Rotate; a failed rename keeps the old handle, only a failed reopen gives up the file. */
    method RotateFiles(faults: Faults)
      requires config.maxFiles >= 2
      modifies this`files, this`open, this`written, this`warnEmitted
      ensures View() == Rotate(old(View()), config, faults)
    {
      CleanStaleFiles(faults.removals);
      ghost var cleaned := files;
      var i := config.maxFiles - 1;
      while i >= 2
        invariant 1 <= i < config.maxFiles && open == old(open) && written == old(written)
        invariant Shift(files, i, faults.renames) == Shift(cleaned, config.maxFiles - 1, faults.renames)
        decreases i
      {
        if i - 1 in files {
          if i in faults.renames {
            WarnOnce();
            return;
          }
          files := Rename(files, i - 1, i);
        }
        i := i - 1;
      }
      assert Shift(cleaned, config.maxFiles - 1, faults.renames) == Shifted(true, files);
      if 0 !in files || 1 in faults.renames {
        WarnOnce();
        return;
      }
      files := Rename(files, 0, 1);
      if faults.reopen {
        WarnOnce();
        open := false;
      } else {
        files := files[0 := []];
        open, written := true, 0;
      }
    }

    /** Write one event; never fails towards the caller. */
    method WriteEvent(event: seq<Byte>, faults: Faults)
      requires Valid()
      modifies this
      ensures Valid()
      ensures View() == Write(old(View()), config, event, faults)
      ensures stream == old(stream) + Accepted(old(View()), config, event, faults)
    {
      WriteKeepsSuffix(View(), config, event, faults, stream);
      ghost var before := View();
      CounterStaysBelow(before, config, event, faults);
      hide IsSuffix, Rotate, ReadDown;
      if !open {
        assert stream + [] == stream;
        return;
      }
      if written + |event| > config.maxSize {
        RotateFiles(faults);
      }
      assert View() == RotateIfFull(before, config, |event|, faults);
      stream := stream + Accepted(before, config, event, faults);
      if !open {
        return;
      }
      files := files[0 := Content(files, 0) + Appended(event, faults)];
      if faults.append.None? {
        written := written + |event|;
      } else {
        WarnOnce();
      }
    }
  }

  lemma CounterStaysBelow(s: State, config: Config, event: seq<Byte>, faults: Faults)
    requires config.maxFiles >= 2 && (s.open ==> 0 in s.files && s.written <= |s.files[0]|)
    ensures var s' := Write(s, config, event, faults); s'.open ==> 0 in s'.files && s'.written <= |s'.files[0]|
  {
    ShiftReads(CleanStale(s.files, config.maxFiles, faults.removals), config.maxFiles - 1, faults.renames);
  }
}
