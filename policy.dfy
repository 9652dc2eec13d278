/** The timestamp policy of the dumper's two loops (Dumper.py `_dumpObjects` and
    `_loadObjects`): whether a child is written, skipped, or reported as a
    conflict. Timestamps are the strings the dumper compares with `<=`: file
    times and watermarks are `%Y-%m-%d %H:%M:%S`, while an object's time is
    whatever `_getObjts` renders, `%Y-%m-%d %H:%M` (minute resolution) under
    Zope 4. String comparison is a total order on them, and a `Timestamp` is a
    natural number standing for a rendered string's rank in that order, not for
    the instant itself. A watermark (`tslastdump`, `tslastload`) is `None` until
    the first run in its direction completes. */
module SyncPolicy {
  import opened Wrappers

  type Timestamp = nat

  /** Rewrite the counterpart; leave it alone (keeping the child in the index);
      leave it alone and report a conflict. */
  datatype Action = Write | Skip | Conflict

  /** `mark and ts <= mark`: a watermark that is set and not earlier than `ts`. */
  predicate AtOrBefore(ts: Timestamp, mark: Option<Timestamp>)
  {
    mark.Some? && ts <= mark.value
  }

  /** The decision of `_dumpObjects` for a supported child: `fileTs` is the
      modification time of its main file, `None` when there is no such file. */
  function DumpAction(dumpAll: bool, isDir: bool, fileTs: Option<Timestamp>, objTs: Timestamp,
                      lastDump: Option<Timestamp>, lastLoad: Option<Timestamp>): Action
  {
    if dumpAll || isDir || fileTs.None? then Write
    else if AtOrBefore(objTs, lastDump) then Skip
    else if AtOrBefore(objTs, lastLoad) then Skip
    else if objTs <= fileTs.value then Conflict
    else Write
  }

  /** The dump decision in closed form: forced writes, then the watermarks, then
      the comparison with the file; each outcome exactly under its condition. */
  lemma DumpActionCases(dumpAll: bool, isDir: bool, fileTs: Option<Timestamp>, objTs: Timestamp,
                        lastDump: Option<Timestamp>, lastLoad: Option<Timestamp>)
    ensures var a := DumpAction(dumpAll, isDir, fileTs, objTs, lastDump, lastLoad);
      var forced := dumpAll || isDir || fileTs.None?;
      var marked := AtOrBefore(objTs, lastDump) || AtOrBefore(objTs, lastLoad);
      && (a == Skip <==> !forced && marked)
      && (a == Conflict <==> !forced && !marked && objTs <= fileTs.value)
      && (a == Write <==> forced || (!marked && fileTs.value < objTs))
  {
  }

  /** Only a strictly newer object overwrites an existing file, unless the run is
      forced or the object is a folder: an object and a file with equal
      timestamps are never overwritten. */
  lemma DumpWritesOnlyNewer(isDir: bool, fileTs: Timestamp, objTs: Timestamp,
                            lastDump: Option<Timestamp>, lastLoad: Option<Timestamp>)
    requires DumpAction(false, isDir, Some(fileTs), objTs, lastDump, lastLoad) == Write
    requires !isDir
    ensures fileTs < objTs
    ensures lastDump.Some? ==> lastDump.value < objTs
    ensures lastLoad.Some? ==> lastLoad.value < objTs
  {
  }

  /** An object not modified since the last dump is not rewritten by the next,
      unforced, one (whatever the file's time). */
  lemma UnchangedSinceDumpSkipped(fileTs: Timestamp, objTs: Timestamp, lastDump: Timestamp,
                                  lastLoad: Option<Timestamp>)
    requires objTs <= lastDump
    ensures DumpAction(false, false, Some(fileTs), objTs, Some(lastDump), lastLoad) == Skip
  {
  }

  /** What `os.path.getmtime` raises for a missing path. */
  const MissingFile := "OSError: [Errno 2] No such file or directory"

  /** The decision of `_loadObjects` for a listed child of a type with a loader:
      `objTs` is the timestamp of the live object with that id, `None` when there
      is none; `fileTs` the modification time of the main file, `None` when it is
      missing, which makes `os.path.getmtime` raise. */
  function LoadAction(loadAll: bool, isDir: bool, objTs: Option<Timestamp>, fileTs: Option<Timestamp>,
                      lastDump: Option<Timestamp>, lastLoad: Option<Timestamp>): Result<Action>
  {
    if loadAll || objTs.None? || isDir then Ok(Write)
    else if fileTs.None? then Err(MissingFile)
    else if AtOrBefore(fileTs.value, lastLoad) then Ok(Skip)
    else if AtOrBefore(fileTs.value, lastDump) then Ok(Skip)
    else if fileTs.value <= objTs.value then Ok(Conflict)
    else Ok(Write)
  }

  /** Loading mirrors dumping: with the file as the source and the live object as
      the counterpart, the load decision is the dump decision (the two loops test
      the watermarks in opposite order, which decides nothing). */
  lemma LoadMirrorsDump(force: bool, isDir: bool, objTs: Timestamp, fileTs: Timestamp,
                        lastDump: Option<Timestamp>, lastLoad: Option<Timestamp>)
    ensures LoadAction(force, isDir, Some(objTs), Some(fileTs), lastDump, lastLoad)
         == Ok(DumpAction(force, isDir, Some(objTs), fileTs, lastLoad, lastDump))
  {
  }

  /** A missing live object is always loaded, and only an existing object whose
      main file is missing makes the decision raise. */
  lemma LoadActionRaises(loadAll: bool, isDir: bool, objTs: Option<Timestamp>, fileTs: Option<Timestamp>,
                         lastDump: Option<Timestamp>, lastLoad: Option<Timestamp>)
    ensures objTs.None? ==> LoadAction(loadAll, isDir, objTs, fileTs, lastDump, lastLoad) == Ok(Write)
    ensures LoadAction(loadAll, isDir, objTs, fileTs, lastDump, lastLoad).Err? <==>
      !loadAll && !isDir && objTs.Some? && fileTs.None?
  {
  }

  /** A file not modified since the last load is not loaded again by the next,
      unforced, load. */
  lemma UnchangedSinceLoadSkipped(objTs: Timestamp, fileTs: Timestamp, lastLoad: Timestamp,
                                  lastDump: Option<Timestamp>)
    requires fileTs <= lastLoad
    ensures LoadAction(false, false, Some(objTs), Some(fileTs), lastDump, Some(lastLoad)) == Ok(Skip)
  {
  }
}
