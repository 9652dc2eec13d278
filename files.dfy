/** The file system as the dumper sees it: paths mapped to files (text and
    modification time) and directories (whose paths end with the separator),
    with the operations the dumper performs on it — `open(p, 'w')`,
    `os.remove`, `shutil.rmtree`, `os.makedirs`, `os.path.exists`,
    `os.path.getmtime` and reading a file's lines — and the exceptions they
    raise. */
module Files {
  import opened Wrappers
  import opened SyncPolicy

  datatype FsNode = File(text: string, mtime: Timestamp) | Directory(mtime: Timestamp)

  type Fs = map<string, FsNode>

  /** A Python exception: ZODB's `ConflictError`, which the dumper never
      swallows, or any other exception, named by its class and message. */
  datatype Exc = ConflictError | Error(msg: string)

  /** The `OSError` a failing `open`, `os.remove` or `shutil.rmtree` raises. The
      class of the error (`FileNotFoundError` for a missing path,
      `IsADirectoryError` or `NotADirectoryError` for a path of the other kind)
      is not distinguished: the dumper treats them alike. */
  const OsError := Error("OSError")

  predicate HasPrefix(q: string, p: string)
  {
    |p| <= |q| && q[..|p|] == p
  }

  /** `os.path.getmtime(p)`, or `None` when `os.path.exists(p)` is false. */
  function MTime(fs: Fs, p: string): (t: Option<Timestamp>)
    ensures t.Some? <==> p in fs
    ensures t.Some? ==> t.value == fs[p].mtime
  {
    if p in fs then Some(fs[p].mtime) else None
  }

  /** The text of the file at `p`, as `open(p).read()` gives it; opening a
      missing path or a directory raises. */
  function ReadText(fs: Fs, p: string): (r: Result<string>)
    ensures r.Ok? <==> p in fs && fs[p].File?
    ensures r.Ok? ==> r.value == fs[p].text
  {
    if p in fs && fs[p].File? then Ok(fs[p].text) else Err(OsError.msg)
  }

  /** `os.remove(p)`: removes a file; raises for a missing path or a directory. */
  function RemoveFile(fs: Fs, p: string): (r: Result<Fs>)
    ensures r.Ok? <==> p in fs && fs[p].File?
    ensures r.Ok? ==> r.value == fs - {p}
  {
    if p in fs && fs[p].File? then Ok(fs - {p}) else Err(OsError.msg)
  }

  /** `shutil.rmtree(p)`: removes the directory `p` and everything under it;
      raises when `p` is not a directory. */
  function RmTree(fs: Fs, p: string): (r: Result<Fs>)
    ensures r.Ok? <==> p in fs && fs[p].Directory?
    ensures r.Ok? ==> forall q :: q in r.value <==> q in fs && !HasPrefix(q, p)
    ensures r.Ok? ==> forall q :: q in r.value ==> r.value[q] == fs[q]
  {
    if p in fs && fs[p].Directory? then Ok(map q | q in fs && !HasPrefix(q, p) :: fs[q]) else Err(OsError.msg)
  }

  /** The file system that tracks the dumper's effects; `now` is the time the
      clock gives to files written during the current step. */
  class FileSystem {
    var entries: Fs

    constructor (entries: Fs)
      ensures this.entries == entries
    {
      this.entries := entries;
    }

    /** `f = open(p, 'w'); f.write(text); f.close()`. It never raises: the
        `OSError` of `open` on a directory path is not modelled. */
    method Write(p: string, text: string, now: Timestamp)
      modifies this
      ensures entries == old(entries)[p := File(text, now)]
    {
      entries := entries[p := File(text, now)];
    }

    /** `os.makedirs(p)` for a path that does not exist yet. */
    method MakeDirs(p: string, now: Timestamp)
      modifies this
      ensures entries == old(entries)[p := Directory(now)]
    {
      entries := entries[p := Directory(now)];
    }

    /** `os.remove(p)`. */
    method Remove(p: string) returns (raised: Option<Exc>)
      modifies this
      ensures raised.None? <==> RemoveFile(old(entries), p).Ok?
      ensures raised.Some? ==> raised == Some(OsError) && entries == old(entries)
      ensures raised.None? ==> entries == RemoveFile(old(entries), p).value
    {
      if p in entries && entries[p].File? {
        entries := entries - {p};
        raised := None;
      } else {
        raised := Some(OsError);
      }
    }

    /** `shutil.rmtree(p)`. */
    method RemoveTree(p: string) returns (raised: Option<Exc>)
      modifies this
      ensures raised.None? <==> RmTree(old(entries), p).Ok?
      ensures raised.Some? ==> raised == Some(OsError) && entries == old(entries)
      ensures raised.None? ==> entries == RmTree(old(entries), p).value
    {
      var r := RmTree(entries, p);
      if r.Ok? {
        entries := r.value;
        raised := None;
      } else {
        raised := Some(OsError);
      }
    }
  }
}
