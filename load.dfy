/** One level of the load walk of the dumper (Dumper.py `_loadFolder` for the
    folder the dumper sits in, `_loadObjects`, `_loadObject`) as functions of the
    state before it: the live folder, the `loaded` log and the `load_conflicts`
    list. The file system is only read. The type-specific loaders — the nested
    `_loadFolder` of a sub-folder among them — are opaque: `Loaders` tells, for
    the live folder, an id, a main path and the file system, the folder the
    loader leaves and whether it returned normally. The folder's own properties
    are loaded by the corrected `LoadProperties`, which splits the value part of
    the `proxy` pair. */
module LoadEngine {
  import opened Wrappers
  import opened Text
  import opened Sorting
  import opened Dicts
  import opened PropertyCodec
  import opened Handlers
  import opened SyncPolicy
  import opened Files
  import opened IndexFiles
  import opened DumpEngine

  datatype LoadOutcome = LoadOutcome(folder: Folder, ok: bool)

  type Loaders = (Folder, string, string, Fs) -> LoadOutcome

  /** The dumper's settings during a load. */
  datatype LoadConfig = LoadConfig(useMetadataFile: bool, loadAll: bool, lastDump: Option<Timestamp>, lastLoad: Option<Timestamp>)

  /** The live folder, the main paths loaded, the main paths in conflict. */
  datatype LoadState = LoadState(folder: Folder, loaded: seq<string>, conflicts: seq<string>)

  datatype LoadResult = LoadResult(st: LoadState, raised: Option<Exc>)

  // ---------------------------------------------------------------------
  // The live folder's children
  // ---------------------------------------------------------------------

  /** `folder._getOb(objid, None)`. */
  function FindChild(cs: seq<Child>, id: string): (r: Option<Child>)
    ensures r.Some? ==> r.value in cs && r.value.id == id
    ensures r.None? ==> forall j :: 0 <= j < |cs| ==> cs[j].id != id
  {
    if cs == [] then None
    else if cs[0].id == id then Some(cs[0])
    else FindChild(cs[1..], id)
  }

  /** `folder._delObject(objid)`: the children without the one of that id. */
  function DeleteChild(cs: seq<Child>, id: string): (r: seq<Child>)
    ensures forall c :: c in r <==> c in cs && c.id != id
    ensures |r| <= |cs|
  {
    if cs == [] then []
    else if cs[0].id == id then DeleteChild(cs[1..], id)
    else [cs[0]] + DeleteChild(cs[1..], id)
  }

  // ---------------------------------------------------------------------
  // One object (_loadObject)
  // ---------------------------------------------------------------------

  /** `_loadObject`: the live object is deleted first, unless it is a folder
      (whose contents are merged); the loader then runs, and a bare `except`
      swallows whatever it raises — a `ConflictError` included — so that the
      path is logged only when the loader returned. Types with a loader are never
      metadata-only, so the `os.splitext` branch is never taken. */
  function LoadObject(st: LoadState, fs: Fs, id: string, p: string, ext: string, run: Loaders): (r: LoadState)
    ensures r.conflicts == st.conflicts
    ensures r.loaded == st.loaded || r.loaded == st.loaded + [p]
    ensures r.loaded == st.loaded + [p] <==> run(Replaced(st.folder, id, ext), id, p, fs).ok
    ensures r.folder == run(Replaced(st.folder, id, ext), id, p, fs).folder
  {
    var out := run(Replaced(st.folder, id, ext), id, p, fs);
    LoadState(out.folder, if out.ok then st.loaded + [p] else st.loaded, st.conflicts)
  }

  /** The folder `_loadObject` hands to the loader: a live object of that id is
      gone unless the entry is a folder, whose contents are merged; the other
      children and the folder's properties are kept. */
  function Replaced(folder: Folder, id: string, ext: string): (f: Folder)
    ensures f.sheet == folder.sheet
    ensures ext != ExtDir ==> FindChild(f.children, id).None?
    ensures forall c :: c in f.children <==> c in folder.children && (ext == ExtDir || c.id != id)
  {
    if ext != ExtDir && FindChild(folder.children, id).Some?
    then folder.(children := DeleteChild(folder.children, id)) else folder
  }

  // ---------------------------------------------------------------------
  // The listed objects (_loadObjects)
  // ---------------------------------------------------------------------

  function ObjectPath(cfg: LoadConfig, fspath: string, id: string, meta: string): string
  {
    FSPathObj(fspath, id, Lookup(meta).ext, cfg.useMetadataFile)
  }

  /** The decision for a listed id of a type with a loader, given the live
      folder: an existing object is compared with its main file. */
  function ObjectAction(cfg: LoadConfig, folder: Folder, fs: Fs, fspath: string, id: string, meta: string): Result<Action>
  {
    var obj := FindChild(folder.children, id);
    LoadAction(cfg.loadAll, Lookup(meta).ext == ExtDir, if obj.Some? then Some(obj.value.ts) else None,
               MTime(fs, ObjectPath(cfg, fspath, id, meta)), cfg.lastDump, cfg.lastLoad)
  }

  /** The body of the loop of `_loadObjects` for one listed id. */
  function LoadEntry(cfg: LoadConfig, st: LoadState, fs: Fs, fspath: string, id: string, meta: string, run: Loaders): LoadResult
  {
    if !Lookup(meta).hasLoader then LoadResult(st, None)
    else
      var p := ObjectPath(cfg, fspath, id, meta);
      match ObjectAction(cfg, st.folder, fs, fspath, id, meta)
      case Err(e) => LoadResult(st, Some(Error(e)))
      case Ok(Skip) => LoadResult(st, None)
      case Ok(Conflict) => LoadResult(st.(conflicts := st.conflicts + [p]), None)
      case Ok(Write) => LoadResult(LoadObject(st, fs, id, p, Lookup(meta).ext, run), None)
  }

  /** One more listed id: it is loaded unless an earlier one raised. */
  lemma LoadObjectsStep(cfg: LoadConfig, st0: LoadState, fs: Fs, fspath: string, ids: seq<string>,
                        metas: map<string, string>, run: Loaders, i: nat)
    requires forall k :: 0 <= k < |ids| ==> ids[k] in metas
    requires i < |ids|
    ensures var r := LoadObjectsSpec(cfg, st0, fs, fspath, ids[..i], metas, run);
      LoadObjectsSpec(cfg, st0, fs, fspath, ids[..i + 1], metas, run)
        == if r.raised.Some? then r else LoadEntry(cfg, r.st, fs, fspath, ids[i], metas[ids[i]], run)
  {
    assert ids[..i + 1][..i] == ids[..i];
  }

  /** The loop over the listed ids, in dictionary order; the first exception
      ends it. */
  function LoadObjectsSpec(cfg: LoadConfig, st0: LoadState, fs: Fs, fspath: string, ids: seq<string>,
                           metas: map<string, string>, run: Loaders): LoadResult
    requires forall k :: 0 <= k < |ids| ==> ids[k] in metas
    decreases |ids|
  {
    if ids == [] then LoadResult(st0, None)
    else
      var r := LoadObjectsSpec(cfg, st0, fs, fspath, ids[..|ids| - 1], metas, run);
      if r.raised.Some? then r
      else LoadEntry(cfg, r.st, fs, fspath, ids[|ids| - 1], metas[ids[|ids| - 1]], run)
  }

  lemma {:induction false} LoadObjectsStops(cfg: LoadConfig, st0: LoadState, fs: Fs, fspath: string, ids: seq<string>,
                                            metas: map<string, string>, run: Loaders, i: nat)
    requires forall k :: 0 <= k < |ids| ==> ids[k] in metas
    requires i <= |ids|
    requires LoadObjectsSpec(cfg, st0, fs, fspath, ids[..i], metas, run).raised.Some?
    ensures LoadObjectsSpec(cfg, st0, fs, fspath, ids, metas, run) == LoadObjectsSpec(cfg, st0, fs, fspath, ids[..i], metas, run)
    decreases |ids|
  {
    if i < |ids| {
      var init := ids[..|ids| - 1];
      assert init[..i] == ids[..i];
      LoadObjectsStops(cfg, st0, fs, fspath, init, metas, run, i);
    } else {
      assert ids[..i] == ids;
    }
  }

  /** One listed id adds at most its own main path to each log, and only when
      its type has a loader. */
  lemma LoadEntryLogs(cfg: LoadConfig, st: LoadState, fs: Fs, fspath: string, id: string, meta: string, run: Loaders)
    ensures var r := LoadEntry(cfg, st, fs, fspath, id, meta, run);
      var p := ObjectPath(cfg, fspath, id, meta);
      && (r.st.loaded == st.loaded || (Lookup(meta).hasLoader && r.st.loaded == st.loaded + [p]))
      && (r.st.conflicts == st.conflicts || (Lookup(meta).hasLoader && r.st.conflicts == st.conflicts + [p]))
  {
  }

  /** `p` is the main path of one of the listed ids whose type has a loader. */
  predicate ListedPath(cfg: LoadConfig, fspath: string, ids: seq<string>, metas: map<string, string>, p: string)
    requires forall k :: 0 <= k < |ids| ==> ids[k] in metas
  {
    exists k :: 0 <= k < |ids| && Lookup(metas[ids[k]]).hasLoader && p == ObjectPath(cfg, fspath, ids[k], metas[ids[k]])
  }

  /** The loop only appends to the two logs, and every path it logs as loaded
      or reports in conflict is the main path of a listed id whose type has a
      loader. */
  lemma {:induction false} LoadedAreListed(cfg: LoadConfig, st0: LoadState, fs: Fs, fspath: string, ids: seq<string>,
                                           metas: map<string, string>, run: Loaders)
    requires forall k :: 0 <= k < |ids| ==> ids[k] in metas
    ensures var r := LoadObjectsSpec(cfg, st0, fs, fspath, ids, metas, run);
      && |st0.loaded| <= |r.st.loaded| && r.st.loaded[..|st0.loaded|] == st0.loaded
      && |st0.conflicts| <= |r.st.conflicts| && r.st.conflicts[..|st0.conflicts|] == st0.conflicts
      && (forall m :: |st0.loaded| <= m < |r.st.loaded| ==> ListedPath(cfg, fspath, ids, metas, r.st.loaded[m]))
      && (forall m :: |st0.conflicts| <= m < |r.st.conflicts| ==> ListedPath(cfg, fspath, ids, metas, r.st.conflicts[m]))
    decreases |ids|
  {
    if ids != [] {
      var n := |ids|;
      var init := ids[..n - 1];
      var id := ids[n - 1];
      LoadedAreListed(cfg, st0, fs, fspath, init, metas, run);
      var r := LoadObjectsSpec(cfg, st0, fs, fspath, init, metas, run);
      var r' := LoadObjectsSpec(cfg, st0, fs, fspath, ids, metas, run);
      if r.raised.Some? {
        assert r' == r;
      } else {
        assert r' == LoadEntry(cfg, r.st, fs, fspath, id, metas[id], run);
        LoadEntryLogs(cfg, r.st, fs, fspath, id, metas[id], run);
      }
      LogStep(st0.loaded, r.st.loaded, r'.st.loaded, cfg, fspath, ids, metas);
      LogStep(st0.conflicts, r.st.conflicts, r'.st.conflicts, cfg, fspath, ids, metas);
    }
  }

  /** One more listed id: a log that was unchanged or grew by that id's main
      path still only holds listed paths past its start. */
  lemma LogStep(a: seq<string>, b: seq<string>, c: seq<string>, cfg: LoadConfig, fspath: string, ids: seq<string>,
                metas: map<string, string>)
    requires ids != [] && forall k :: 0 <= k < |ids| ==> ids[k] in metas
    requires |a| <= |b| && b[..|a|] == a
    requires forall m :: |a| <= m < |b| ==> ListedPath(cfg, fspath, ids[..|ids| - 1], metas, b[m])
    requires var id := ids[|ids| - 1];
      c == b || (Lookup(metas[id]).hasLoader && c == b + [ObjectPath(cfg, fspath, id, metas[id])])
    ensures |a| <= |c| && c[..|a|] == a
    ensures forall m :: |a| <= m < |c| ==> ListedPath(cfg, fspath, ids, metas, c[m])
  {
    assert c[..|b|] == b;
    assert c[..|a|] == b[..|a|];
    forall m | |a| <= m < |c| ensures ListedPath(cfg, fspath, ids, metas, c[m]) {
      if m < |b| {
        assert c[m] == b[m];
        ListedGrows(cfg, fspath, ids, metas, b[m]);
      } else {
        var k := |ids| - 1;
        assert Lookup(metas[ids[k]]).hasLoader && c[m] == ObjectPath(cfg, fspath, ids[k], metas[ids[k]]);
      }
    }
  }

  /** A path listed by the ids but the last is listed by all of them. */
  lemma ListedGrows(cfg: LoadConfig, fspath: string, ids: seq<string>, metas: map<string, string>, q: string)
    requires ids != [] && forall k :: 0 <= k < |ids| ==> ids[k] in metas
    requires ListedPath(cfg, fspath, ids[..|ids| - 1], metas, q)
    ensures ListedPath(cfg, fspath, ids, metas, q)
  {
    var init := ids[..|ids| - 1];
    var k :| 0 <= k < |init| && Lookup(metas[init[k]]).hasLoader && q == ObjectPath(cfg, fspath, init[k], metas[init[k]]);
    assert init[k] == ids[k];
  }

  /** Nothing is loaded when every listed object of a type with a loader exists,
      is not a folder, and has a main file not newer than the last dump — as
      right after a dump: the live folder and the logs stay as they were. */
  lemma {:induction false} NothingNewerNothingLoaded(cfg: LoadConfig, st0: LoadState, fs: Fs, fspath: string,
                                                     ids: seq<string>, metas: map<string, string>, run: Loaders)
    requires forall k :: 0 <= k < |ids| ==> ids[k] in metas
    requires !cfg.loadAll
    requires forall k :: 0 <= k < |ids| && Lookup(metas[ids[k]]).hasLoader ==>
      && Lookup(metas[ids[k]]).ext != ExtDir
      && FindChild(st0.folder.children, ids[k]).Some?
      && MTime(fs, ObjectPath(cfg, fspath, ids[k], metas[ids[k]])).Some?
      && AtOrBefore(MTime(fs, ObjectPath(cfg, fspath, ids[k], metas[ids[k]])).value, cfg.lastDump)
    ensures LoadObjectsSpec(cfg, st0, fs, fspath, ids, metas, run) == LoadResult(st0, None)
    decreases |ids|
  {
    if ids != [] {
      var init := ids[..|ids| - 1];
      forall k | 0 <= k < |init| ensures init[k] in metas && init[k] == ids[k] {
      }
      NothingNewerNothingLoaded(cfg, st0, fs, fspath, init, metas, run);
    }
  }

  // ---------------------------------------------------------------------
  // Deleting live objects that are no longer listed
  // ---------------------------------------------------------------------

  /** A live child that the deletion loop removes: its type has a dumper and
      its id is not listed. */
  predicate Doomed(c: Child, objs: Dict<string>)
  {
    Lookup(c.meta).hasDumper && c.id !in objs.values
  }

  /** The loop `for obj in folder.objectValues()` over the children `visited`
      (a snapshot taken before the loop), starting from the children `cs`. */
  function PruneSpec(cs: seq<Child>, visited: seq<Child>, objs: Dict<string>): seq<Child>
    decreases |visited|
  {
    if visited == [] then cs
    else
      var before := PruneSpec(cs, visited[..|visited| - 1], objs);
      var c := visited[|visited| - 1];
      if Doomed(c, objs) then DeleteChild(before, c.id) else before
  }

  /** One more visited child: deleted when it is doomed. */
  lemma PruneStep(cs: seq<Child>, objs: Dict<string>, i: nat)
    requires i < |cs|
    ensures PruneSpec(cs, cs[..i + 1], objs)
            == if Doomed(cs[i], objs) then DeleteChild(PruneSpec(cs, cs[..i], objs), cs[i].id)
               else PruneSpec(cs, cs[..i], objs)
  {
    assert cs[..i + 1][..i] == cs[..i];
  }

  /** A child survives the deletion loop exactly when no visited child with its
      id is doomed. */
  lemma {:induction false} PruneMembers(cs: seq<Child>, visited: seq<Child>, objs: Dict<string>, c: Child)
    ensures c in PruneSpec(cs, visited, objs) <==>
      c in cs && forall j :: 0 <= j < |visited| ==> !(visited[j].id == c.id && Doomed(visited[j], objs))
    decreases |visited|
  {
    if visited != [] {
      var n := |visited|;
      var init := visited[..n - 1];
      PruneMembers(cs, init, objs, c);
      forall j | 0 <= j < n - 1 ensures visited[j] == init[j] {
      }
    }
  }

  /** With distinct ids, the deletion loop over the folder's own children keeps
      exactly the children whose type has no dumper and those that are listed:
      unsupported objects are never deleted. */
  lemma PruneKeeps(cs: seq<Child>, objs: Dict<string>, c: Child)
    requires DistinctChildIds(cs)
    ensures c in PruneSpec(cs, cs, objs) <==> c in cs && !Doomed(c, objs)
  {
    PruneMembers(cs, cs, objs, c);
    if c in cs && !Doomed(c, objs) {
      var i :| 0 <= i < |cs| && cs[i] == c;
      forall j | 0 <= j < |cs| ensures !(cs[j].id == c.id && Doomed(cs[j], objs)) {
        if j != i && cs[j].id == c.id {
          assert cs[j].id == cs[i].id;
        }
      }
    }
    if c in cs && Doomed(c, objs) {
      var i :| 0 <= i < |cs| && cs[i] == c;
      assert cs[i].id == c.id && Doomed(cs[i], objs);
    }
  }

  // ---------------------------------------------------------------------
  // The folder (_loadFolder)
  // ---------------------------------------------------------------------

  /** The index lines after the properties, as `_loadFolder` reads them: in
      metadata mode the rest of the metadata file after one skipped line, in
      properties mode the `.objects` file, which must exist. */
  function ListedObjects(cfg: LoadConfig, fs: Fs, fspath: string, rest: seq<string>): (r: Result<Dict<string>>)
    ensures r.Ok? ==> Valid(r.value)
  {
    if cfg.useMetadataFile then
      if rest == [] then Err(NoNextLine)
      else
        ParseIndexValid(rest[1..], Empty());
        ParseIndexFrom(rest[1..], Empty())
    else
      match ReadText(fs, ObjectsPath(fspath))
      case Err(e) => Err(e)
      case Ok(text) =>
        ParseIndexValid(Lines(text), Empty());
        ParseIndexFrom(Lines(text), Empty())
  }

  /** `_loadFolder` for the folder the dumper sits in: read and load its
      properties (the proxy roles corrected), read its index, load the listed
      objects, then delete the live children that are not listed. */
  function LoadFolderSpec(cfg: LoadConfig, st0: LoadState, fs: Fs, fspath: string, run: Loaders): LoadResult
  {
    match ReadText(fs, MetadataPath(fspath, cfg.useMetadataFile))
    case Err(e) => LoadResult(st0, Some(Error(e)))
    case Ok(text) =>
      var (props, rest) := ReadFrom(SkipHeader(Lines(text)), Empty());
      ReadFromValid(SkipHeader(Lines(text)), Empty());
      var st1 := st0.(folder := st0.folder.(sheet := LoadProperties(st0.folder.sheet, props)));
      match ListedObjects(cfg, fs, fspath, rest)
      case Err(e) => LoadResult(st1, Some(Error(e)))
      case Ok(objs) =>
        var r := LoadObjectsSpec(cfg, st1, fs, fspath, objs.keys, objs.values, run);
        if r.raised.Some? then r
        else
          var cs := r.st.folder.children;
          LoadResult(r.st.(folder := r.st.folder.(children := PruneSpec(cs, cs, objs))), None)
  }

  /** The index as the load reads it. */
  function LoadIndex(cfg: LoadConfig, fs: Fs, fspath: string): Result<Dict<string>>
  {
    match ReadText(fs, MetadataPath(fspath, cfg.useMetadataFile))
    case Err(e) => Err(e)
    case Ok(text) => ListedObjects(cfg, fs, fspath, ReadFrom(SkipHeader(Lines(text)), Empty()).1)
  }

  /** The load reads the index the way the dump does, once the folder's
      metadata file exists. */
  lemma LoadIndexIsPreviousIndex(cfg: LoadConfig, fs: Fs, fspath: string)
    requires var mp := MetadataPath(fspath, cfg.useMetadataFile); mp in fs && fs[mp].File?
    requires !cfg.useMetadataFile ==> ObjectsPath(fspath) in fs
    ensures LoadIndex(cfg, fs, fspath) == PreviousIndex(Config(cfg.useMetadataFile, false, None, None), fs, fspath)
  {
  }

  /** A load that follows a completed dump lists exactly the entries the dump
      wrote to the index. */
  lemma LoadIndexAfterDump(cfg: Config, st0: DumpState, folder: Folder, fspath: string, run: Dumpers,
                           now: Timestamp, lcfg: LoadConfig)
    requires lcfg.useMetadataFile == cfg.useMetadataFile
    requires ScanFolder(cfg, st0, fspath, now).Ok?
    requires forall k :: k in ScanFolder(cfg, st0, fspath, now).value.objs.values ==> PlainId(k)
    requires DumpFolderSpec(cfg, st0, folder, fspath, run, now).raised.None?
    requires DistinctChildIds(folder.children)
    requires forall j :: 0 <= j < |folder.children| ==> SafeField(folder.children[j].id) && SafeField(folder.children[j].meta)
    requires cfg.useMetadataFile ==> Writable(folder.sheet)
    ensures var r := LoadIndex(lcfg, DumpFolderSpec(cfg, st0, folder, fspath, run, now).st.fs, fspath);
      r.Ok? && IndexOf(r.value, FolderIndex(cfg, st0, folder, fspath, run, now))
  {
    DumpFolderIndexRoundTrip(cfg, st0, folder, fspath, run, now);
    DumpFolderLeavesFiles(cfg, st0, folder, fspath, run, now);
    LoadIndexIsPreviousIndex(lcfg, DumpFolderSpec(cfg, st0, folder, fspath, run, now).st.fs, fspath);
  }
}
