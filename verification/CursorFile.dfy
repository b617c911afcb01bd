/** The resume cursor on disk (poll.go): reading it, and replacing it through a
    temporary file and a rename. The point of the protocol is that the target
    behaves like an atomic register whatever system call fails and wherever the
    process dies. */
module CursorFile {
  import opened Prelude

  datatype Path = Path(dir: string, base: string)

  type Files = map<Path, string>

  /** What the operating system does to one call of WriteCursor. `landed` is how
      many characters of the cursor have reached the temporary file when the write
      fails, or when the process dies inside it. */
  datatype Faults = Faults(mkdirOk: bool, createOk: bool, suffix: string, writeOk: bool,
                           landed: nat, closeOk: bool, renameOk: bool, removeOk: bool)

  /** The sibling CreateTemp makes from the pattern "<base>.*.tmp". */
  function TempName(target: Path, suffix: string): (temp: Path)
    ensures temp != target && temp.dir == target.dir
  {
    assert |target.base + "." + suffix + ".tmp"| > |target.base|;
    Path(target.dir, target.base + "." + suffix + ".tmp")
  }

  function Landed(cursor: string, n: nat): (part: string)
    ensures part <= cursor
  {
    if n <= |cursor| then cursor[..n] else cursor
  }

  /** The register the file implements: what the target holds, if it exists. */
  function Register(path: Option<Path>, files: Files): Option<string> {
    if path.Some? && path.value in files then Some(files[path.value]) else None
  }

  /** readCursor as its caller uses it (`cursor, _ := p.readCursor()`): a missing
      file, an unreadable file and an unset path all mean the empty cursor. */
  function ReadCursor(path: Option<Path>, files: Files, readable: bool): (cursor: string)
    ensures readable && path.Some? && path.value in files ==> cursor == files[path.value]
    ensures !readable || path.None? || path.value !in files ==> cursor == ""
  {
    if path.Some? && path.value in files && readable then files[path.value] else ""
  }

  /** The file systems a crash of WriteCursor can leave behind: untouched, with a new
      temporary file, partial or complete, beside the old target, or replaced. */
  predicate CrashState(path: Option<Path>, temp: Path, before: Files, cursor: string, after: Files) {
    || after == before
    || (path.Some? && after == before[path.value := cursor])
    || (path.Some? && temp != path.value && temp !in before && temp in after && after[temp] <= cursor
        && after == before[temp := after[temp]])
  }

  /** A crash anywhere leaves the register at its whole old or whole new value, and
      only a completed replacement makes it new. */
  lemma CrashLeavesOldOrNew(path: Option<Path>, temp: Path, before: Files, cursor: string, after: Files)
    requires CrashState(path, temp, before, cursor, after)
    ensures Register(path, after) == Register(path, before)
            || (path.Some? && after == before[path.value := cursor] && Register(path, after) == Some(cursor))
  {
    if path.Some? && after != before && after != before[path.value := cursor] {
      assert path.value in after <==> path.value in before;
    }
  }

  /** States in which a crash finds the register as it was. */
  ghost predicate Quiet(path: Option<Path>, temp: Path, before: Files, cursor: string, states: seq<Files>) {
    states == [] ||
    var n := |states| - 1;
    && CrashState(path, temp, before, cursor, states[n])
    && Register(path, states[n]) == Register(path, before)
    && Quiet(path, temp, before, cursor, states[..n])
  }

  lemma TempUndone(before: Files, temp: Path, part: string)
    requires temp !in before
    ensures before[temp := part] - {temp} == before
  {
  }

  lemma TempRewritten(before: Files, temp: Path, part: string, whole: string)
    ensures before[temp := part][temp := whole] == before[temp := whole]
  {
  }

  lemma QuietNext(path: Option<Path>, temp: Path, before: Files, cursor: string, states: seq<Files>, s: Files)
    requires Quiet(path, temp, before, cursor, states) && path.Some? && temp != path.value && temp !in before
    requires s == before || (temp in s && s[temp] <= cursor && s == before[temp := s[temp]])
    ensures Quiet(path, temp, before, cursor, states + [s])
  {
    assert (states + [s])[..|states|] == states;
  }

  /** CreateTemp opens exclusively: a name that is taken is an error. */
  predicate Created(path: Option<Path>, before: Files, f: Faults) {
    path.Some? && f.mkdirOk && f.createOk && TempName(path.value, f.suffix) !in before
  }

  /** Does the sequence of system calls reach its end? */
  predicate Succeeds(path: Option<Path>, before: Files, f: Faults) {
    path.None? || (Created(path, before, f) && f.writeOk && f.closeOk && f.renameOk)
  }

  /** The file system after a call that returns. */
  function Settled(path: Option<Path>, before: Files, cursor: string, f: Faults): (after: Files)
    ensures path.Some? ==> CrashState(path, TempName(path.value, f.suffix), before, cursor, after)
    ensures path.None? ==> after == before
    ensures !Succeeds(path, before, f) ==> Register(path, after) == Register(path, before)
    ensures Succeeds(path, before, f) && path.Some? ==> after == before[path.value := cursor]
    ensures f.removeOk ==> after.Keys <= before.Keys + (if path.Some? then {path.value} else {})
  {
    if !Created(path, before, f) then before
    else if Succeeds(path, before, f) then before[path.value := cursor]
    else if f.removeOk then before
    else
      var part := if f.writeOk then cursor else Landed(cursor, f.landed);
      before[TempName(path.value, f.suffix) := part]
  }

  /** The next read after a call that returns: the new value exactly when the call
      succeeded, what was there before when it did not. A temporary file is left
      only when Remove fails too. */
  lemma NextReadAfterWrite(path: Option<Path>, before: Files, cursor: string, f: Faults)
    ensures ReadCursor(path, Settled(path, before, cursor, f), true)
            == if Succeeds(path, before, f) && path.Some? then cursor else ReadCursor(path, before, true)
    ensures f.removeOk && path.Some? ==> Settled(path, before, cursor, f) in {before, before[path.value := cursor]}
  {
    if Created(path, before, f) {
      CrashLeavesOldOrNew(path, TempName(path.value, f.suffix), before, cursor, Settled(path, before, cursor, f));
    }
  }

  /** The directory tree the client writes to. `seen` records every state the
      system calls pass through: a crash exposes one of them. */
  class CursorStore {
    const path: Option<Path>
    var files: Files
    ghost var seen: seq<Files>

    constructor (path: Option<Path>)
      ensures this.path == path && files == map[] && seen == []
    {
      this.path := path;
      files := map[];
      seen := [];
    }

    method Store(p: Path, content: string)
      modifies this
      ensures files == old(files)[p := content] && seen == old(seen) + [files]
    {
      files := files[p := content];
      seen := seen + [files];
    }

    method Rename(from: Path, to: Path)
      requires from in files && from != to
      modifies this
      ensures files == (old(files) - {from})[to := old(files)[from]] && seen == old(seen) + [files]
    {
      files := (files - {from})[to := files[from]];
      seen := seen + [files];
    }

    method Remove(p: Path)
      modifies this
      ensures files == old(files) - {p} && seen == old(seen) + [files]
    {
      files := files - {p};
      seen := seen + [files];
    }

    /** The deferred clean-up of a temporary file that was not committed. */
    method CleanUp(temp: Path, removeOk: bool)
      modifies this
      ensures files == if removeOk then old(files) - {temp} else old(files)
      ensures seen == if removeOk then old(seen) + [files] else old(seen)
    {
      if removeOk {
        Remove(temp);
      }
    }

    /** Creates, fills and closes the temporary file; the target is not touched.
        `passed` is what the disk goes through. */
    method Stage(temp: Path, cursor: string, f: Faults) returns (staged: bool, ghost passed: seq<Files>)
      requires path.Some? && temp != path.value && temp !in files && f.createOk
      modifies this
      ensures staged == (f.writeOk && f.closeOk)
      ensures files == if staged || !f.removeOk
                       then old(files)[temp := if f.writeOk then cursor else Landed(cursor, f.landed)]
                       else old(files)
      ensures seen == old(seen) + passed && passed != [] && passed[|passed| - 1] == files
      ensures Quiet(path, temp, old(files), cursor, passed)
    {
      ghost var before := files;
      Store(temp, "");
      QuietNext(path, temp, before, cursor, [], files);
      passed := [] + [files];
      var part := Landed(cursor, f.landed);
      Store(temp, part);
      TempRewritten(before, temp, "", part);
      QuietNext(path, temp, before, cursor, passed, files);
      passed := passed + [files];
      if f.writeOk {
        Store(temp, cursor);
        TempRewritten(before, temp, part, cursor);
        QuietNext(path, temp, before, cursor, passed, files);
        passed, part := passed + [files], cursor;
      }
      staged := f.writeOk && f.closeOk;
      if !staged {
        CleanUp(temp, f.removeOk);
        if f.removeOk {
          TempUndone(before, temp, part);
          QuietNext(path, temp, before, cursor, passed, files);
          passed := passed + [files];
        }
      }
    }

    /** Every state the disk passes through leaves the register as it was, except the
        last one of a call that succeeds. */
    method WriteCursor(cursor: string, f: Faults) returns (ok: bool, ghost quiet: seq<Files>)
      modifies this
      ensures path.Some? ==>
                (ok <==> f.mkdirOk && f.createOk && TempName(path.value, f.suffix) !in old(files)
                         && f.writeOk && f.closeOk && f.renameOk)
      ensures path.Some? && ok ==> files == old(files)[path.value := cursor]
      ensures path.Some? && !ok ==> (path.value in files <==> path.value in old(files))
                                    && (path.value in files ==> files[path.value] == old(files)[path.value])
      ensures !ok && f.removeOk ==> files == old(files)
      ensures path.None? ==> ok && files == old(files)
      ensures ok == Succeeds(path, old(files), f)
      ensures files == Settled(path, old(files), cursor, f)
      ensures seen == old(seen) + quiet + (if ok && path.Some? then [files] else [])
      ensures path.Some? ==> Quiet(path, TempName(path.value, f.suffix), old(files), cursor, quiet)
      ensures path.None? ==> quiet == []
      ensures !ok && quiet != [] ==> quiet[|quiet| - 1] == files
    {
      quiet := [];
      if path.None? {
        return true, quiet;
      }
      if !f.mkdirOk {
        return false, quiet;
      }
      var temp := TempName(path.value, f.suffix);
      if !f.createOk || temp in files {
        return false, quiet;
      }
      ok, quiet := Stage(temp, cursor, f);
      if !ok {
        return false, quiet;
      }
      if !f.renameOk {
        CleanUp(temp, f.removeOk);
        if f.removeOk {
          assert files == old(files);
          QuietNext(path, temp, old(files), cursor, quiet, files);
          quiet := quiet + [files];
        }
        return false, quiet;
      }
      Rename(temp, path.value);
      assert files == old(files)[path.value := cursor];
    }
  }
}
