/** The dumper object (Dumper.py class `Dumper`): its settings, its watermarks
    and the logs of the last dump and load, and the methods that walk one folder
    level in either direction. Each method is proved to leave the state that the
    functions of `DumpEngine` and `LoadEngine` describe, so it models the
    program with the corrections those specifications apply. */
module FSDump {
  import opened Wrappers
  import opened Text
  import opened Sorting
  import opened Dicts
  import opened PropertyCodec
  import opened Handlers
  import opened SyncPolicy
  import opened Files
  import opened IndexFiles
  import opened DumpEngine
  import opened LoadEngine

  /** The live Zope folder the dumper sits in: its properties and its children,
      updated in place by the load. */
  class ZopeFolder {
    var sheet: PropertySheet
    var children: seq<Child>

    constructor (sheet: PropertySheet, children: seq<Child>)
      ensures this.sheet == sheet && this.children == children
    {
      this.sheet := sheet;
      this.children := children;
    }

    function Value(): Folder
      reads this
    {
      Folder(sheet, children)
    }

    /** `_delObject(objid)` and `manage_delObjects([objid])`. */
    method DelObject(id: string)
      modifies this
      ensures sheet == old(sheet) && children == DeleteChild(old(children), id)
    {
      children := DeleteChild(children, id);
    }
  }

  class Dumper {
    var useMetadataFile: bool
    var dumpAll: bool
    var loadAll: bool
    var tslastdump: Option<Timestamp>
    var tslastload: Option<Timestamp>
    var dumped: seq<DumpLog>
    var dumpConflicts: seq<DumpConflict>
    var loaded: seq<string>
    var loadConflicts: seq<string>

    /** A fresh dumper: no dump or load has completed yet. */
    constructor (useMetadataFile: bool, dumpAll: bool, loadAll: bool)
      ensures this.useMetadataFile == useMetadataFile && this.dumpAll == dumpAll && this.loadAll == loadAll
      ensures tslastdump.None? && tslastload.None?
      ensures dumped == [] && dumpConflicts == [] && loaded == [] && loadConflicts == []
    {
      this.useMetadataFile := useMetadataFile;
      this.dumpAll := dumpAll;
      this.loadAll := loadAll;
      tslastdump := None;
      tslastload := None;
      dumped := [];
      dumpConflicts := [];
      loaded := [];
      loadConflicts := [];
    }

    /** The settings a dump runs under. */
    function Settings(): Config
      reads this
    {
      Config(useMetadataFile, dumpAll, tslastdump, tslastload)
    }

    /** The settings a load runs under. */
    function LoadSettings(): LoadConfig
      reads this
    {
      LoadConfig(useMetadataFile, loadAll, tslastdump, tslastload)
    }

    // -------------------------------------------------------------------
    // Dump
    // -------------------------------------------------------------------

    /** `dumpToFS`: clears the dump logs, dumps the folder and, only when that
        completes, moves the dump watermark to the current time. */
    method DumpToFS(fs: FileSystem, folder: Folder, fspath: string, run: Dumpers, now: Timestamp)
      returns (raised: Option<Exc>)
      modifies this`dumped, this`dumpConflicts, this`tslastdump, fs
      ensures var r := DumpFolderSpec(old(Settings()), DumpState(old(fs.entries), [], []), folder, fspath, run, now);
        && fs.entries == r.st.fs && dumped == r.st.log && dumpConflicts == r.st.conflicts && raised == r.raised
      ensures tslastdump == if raised.None? then Some(now) else old(tslastdump)
    {
      dumped := [];
      dumpConflicts := [];
      raised := DumpFolder(fs, folder, fspath, run, now);
      if raised.None? {
        tslastdump := Some(now);
      }
    }

    /** `_dumpFolder`. */
    method DumpFolder(fs: FileSystem, folder: Folder, fspath: string, run: Dumpers, now: Timestamp)
      returns (raised: Option<Exc>)
      modifies this`dumped, this`dumpConflicts, fs
      ensures var r := DumpFolderSpec(Settings(), DumpState(old(fs.entries), old(dumped), old(dumpConflicts)), folder, fspath, run, now);
        fs.entries == r.st.fs && dumped == r.st.log && dumpConflicts == r.st.conflicts && raised == r.raised
    {
      var objs;
      objs, raised := ScanFolder(fs, fspath, now);
      if raised.Some? {
        return;
      }
      var entries;
      entries, raised := DumpObjects(fs, fspath, folder.children, run);
      if raised.Some? {
        return;
      }
      raised := FinishFolder(fs, folder.sheet, fspath, objs, entries, now);
    }

    /** The start of `_dumpFolder`: the previous index of an existing folder
        directory, or a new directory. */
    method ScanFolder(fs: FileSystem, fspath: string, now: Timestamp) returns (objs: Dict<string>, raised: Option<Exc>)
      modifies this`dumped, fs
      ensures var r := DumpEngine.ScanFolder(Settings(), DumpState(old(fs.entries), old(dumped), dumpConflicts), fspath, now);
        && (r.Err? <==> raised.Some?)
        && (r.Err? ==> raised == Some(Error(r.error)) && fs.entries == old(fs.entries) && dumped == old(dumped))
        && (r.Ok? ==> r.value == Scan(DumpState(fs.entries, dumped, dumpConflicts), objs))
    {
      objs := Empty();
      raised := None;
      if fspath in fs.entries {
        var previous := ReadPreviousIndex(fs, fspath);
        if previous.Err? {
          return objs, Some(Error(previous.error));
        }
        objs := previous.value;
        if dumpAll {
          dumped := dumped + [FolderDumped(fspath)];
        }
      } else {
        fs.MakeDirs(fspath, now);
        dumped := dumped + [FolderDumped(fspath)];
      }
    }

    /** The end of `_dumpFolder`: the folder's metadata and index files, the
        log of the objects written, and the removal of the stale entries. */
    method FinishFolder(fs: FileSystem, sheet: PropertySheet, fspath: string, objs: Dict<string>,
                        entries: seq<IndexEntry>, now: Timestamp) returns (raised: Option<Exc>)
      requires Valid(objs)
      modifies this`dumped, fs
      ensures var r := DumpEngine.FinishFolder(Settings(), DumpState(old(fs.entries), old(dumped), dumpConflicts),
                                               sheet, fspath, objs, entries, now);
        fs.entries == r.st.fs && dumped == r.st.log && raised == r.raised
    {
      var sorted := SortBy(entries, EntryId);
      var props := WriteProperties(sheet);
      var index, stale := WriteIndex(fspath, sorted, objs);
      var text := MetadataHeader(useMetadataFile) + props;
      if useMetadataFile {
        text := text + ("\n" + ObjectsHeader + index);
      }
      assert text == FolderMetadataText(useMetadataFile, sheet, sorted);
      fs.Write(MetadataPath(fspath, useMetadataFile), text, now);
      if !useMetadataFile {
        fs.Write(ObjectsPath(fspath), index, now);
      }
      assert fs.entries == DumpEngine.WriteIndex(Settings(), old(fs.entries), fspath, sheet, sorted, now);
      raised := Reconcile(fs, fspath, stale);
    }

    /** Reading the index the previous dump left. */
    method ReadPreviousIndex(fs: FileSystem, fspath: string) returns (r: Result<Dict<string>>)
      ensures r == PreviousIndex(Settings(), fs.entries, fspath)
    {
      if useMetadataFile {
        var mp := MetadataPath(fspath, true);
        if mp !in fs.entries {
          return Ok(Empty());
        }
        var text := ReadText(fs.entries, mp);
        if text.Err? {
          return Err(text.error);
        }
        var props, rest := ReadProperties(SkipHeader(Lines(text.value)));
        if rest == [] {
          return Err(NoNextLine);
        }
        r := ReadIndex(rest[1..]);
      } else {
        if ObjectsPath(fspath) !in fs.entries {
          return Ok(Empty());
        }
        var text := ReadText(fs.entries, ObjectsPath(fspath));
        if text.Err? {
          return Err(text.error);
        }
        r := ReadIndex(Lines(text.value));
      }
    }

    /** The loop `for line in metafile: objid, meta = line[:-1].split(':')`. */
    method ReadIndex(lines: seq<string>) returns (r: Result<Dict<string>>)
      ensures r == ParseIndexFrom(lines, Empty())
    {
      var objs := Empty();
      var i := 0;
      while i < |lines|
        invariant 0 <= i <= |lines|
        invariant ParseIndexFrom(lines[i..], objs) == ParseIndexFrom(lines, Empty())
      {
        assert lines[i..][1..] == lines[i + 1..];
        var parts := Split(DropLast(lines[i]), ':');
        if |parts| != 2 {
          return Err(ParseIndexLine(lines[i]).error);
        }
        objs := Put(objs, parts[0], parts[1]);
        i := i + 1;
      }
      r := Ok(objs);
    }

    /** `_dumpObjects`. */
    method DumpObjects(fs: FileSystem, fspath: string, children: seq<Child>, run: Dumpers)
      returns (entries: seq<IndexEntry>, raised: Option<Exc>)
      modifies this`dumped, this`dumpConflicts, fs
      ensures Pass(DumpState(fs.entries, dumped, dumpConflicts), entries, raised)
           == DumpObjectsSpec(Settings(), DumpState(old(fs.entries), old(dumped), old(dumpConflicts)), fspath, children, run)
    {
      ghost var st0 := DumpState(fs.entries, dumped, dumpConflicts);
      entries := [];
      raised := None;
      var i := 0;
      while i < |children|
        invariant 0 <= i <= |children|
        invariant raised.None?
        invariant Pass(DumpState(fs.entries, dumped, dumpConflicts), entries, raised)
               == DumpObjectsSpec(Settings(), st0, fspath, children[..i], run)
      {
        DumpObjectsStep(Settings(), st0, fspath, children, run, i);
        var entry;
        entry, raised := DumpChild(fs, fspath, children[i], run);
        if entry.Some? {
          entries := entries + [entry.value];
        }
        i := i + 1;
        if raised.Some? {
          DumpObjectsStops(Settings(), st0, fspath, children, run, i);
          return;
        }
      }
      assert children[..i] == children;
    }

    /** The body of the loop of `_dumpObjects` for one child: the decision is
        that of `SyncPolicy.DumpAction` on the child's main path. */
    method DumpChild(fs: FileSystem, fspath: string, c: Child, run: Dumpers)
      returns (entry: Option<IndexEntry>, raised: Option<Exc>)
      modifies this`dumped, this`dumpConflicts, fs
      ensures Step(DumpState(fs.entries, dumped, dumpConflicts), entry, raised)
           == DumpEngine.DumpChild(Settings(), DumpState(old(fs.entries), old(dumped), old(dumpConflicts)), fspath, c, run)
    {
      entry, raised := None, None;
      var h := Lookup(c.meta);
      if !h.hasDumper {
        return;
      }
      ghost var st := DumpState(fs.entries, dumped, dumpConflicts);
      ghost var spec := DumpEngine.DumpChild(Settings(), st, fspath, c, run);
      var p := FSPathObj(fspath, c.id, h.ext, useMetadataFile);
      var action := DumpAction(dumpAll, h.ext == ExtDir, MTime(fs.entries, p), c.ts, tslastdump, tslastload);
      assert action == ChildAction(Settings(), st.fs, fspath, c);
      match action {
        case Skip =>
          entry := Some(IndexEntry(c.id, c.meta, false, c.ts));
        case Conflict =>
          entry := Some(IndexEntry(c.id, c.meta, false, c.ts));
          dumpConflicts := dumpConflicts + [DumpConflict(p, c.ts, fs.entries[p].mtime)];
        case Write =>
          var ok;
          var target := DumpTarget(fspath, c.id, h.ext, useMetadataFile);
          assert spec == var r := DumpEngine.DumpObject(st, target, c, run);
            Step(r.st, if r.ok then Some(IndexEntry(c.id, c.meta, true, c.ts)) else None, r.raised);
          ok, raised := DumpObject(fs, target, c, run);
          if ok {
            entry := Some(IndexEntry(c.id, c.meta, true, c.ts));
          }
      }
    }

    /** `_dumpObject`, with the corrected target for a metadata-only type. */
    method DumpObject(fs: FileSystem, target: string, c: Child, run: Dumpers) returns (ok: bool, raised: Option<Exc>)
      modifies this`dumped, fs
      ensures var r := DumpEngine.DumpObject(DumpState(old(fs.entries), old(dumped), dumpConflicts), target, c, run);
        fs.entries == r.st.fs && dumped == r.st.log && ok == r.ok && raised == r.raised
    {
      var out := run(target, c, fs.entries);
      fs.entries := out.fs;
      match out.raised {
        case None =>
          ok, raised := true, None;
        case Some(ConflictError) =>
          ok, raised := false, Some(ConflictError);
        case Some(Error(m)) =>
          dumped := dumped + [DumpFailed(target, m)];
          ok, raised := false, None;
      }
    }

    /** The loop over the sorted entries: an index line each, a log entry for
        each object written this time, and `del objs[objid]` for each listed id
        the previous index holds. */
    method WriteIndex(fspath: string, sorted: seq<IndexEntry>, objs: Dict<string>)
      returns (text: string, stale: Dict<string>)
      requires Valid(objs)
      modifies this`dumped
      ensures text == IndexText(sorted)
      ensures stale == Stale(objs, sorted)
      ensures dumped == old(dumped) + UpdatedLog(fspath, sorted)
    {
      text := "";
      stale := objs;
      var i := 0;
      while i < |sorted|
        invariant 0 <= i <= |sorted|
        invariant text == IndexText(sorted[..i])
        invariant stale == Stale(objs, sorted[..i])
        invariant dumped == old(dumped) + UpdatedLog(fspath, sorted[..i])
      {
        var e := sorted[i];
        IndexTextStep(sorted, i);
        UpdatedLogStep(fspath, sorted, i);
        StaleStep(objs, sorted, i);
        text := text + IndexLine(e);
        if e.updated && e.meta != "Folder" {
          ghost var log := UpdatedLog(fspath, sorted[..i]);
          assert old(dumped) + log + [ObjectDumped(e.ts, e.meta, fspath + e.id)]
              == old(dumped) + (log + [ObjectDumped(e.ts, e.meta, fspath + e.id)]);
          dumped := dumped + [ObjectDumped(e.ts, e.meta, fspath + e.id)];
        }
        if e.id in stale.values {
          stale := Remove(stale, e.id);
        }
        i := i + 1;
      }
      assert sorted[..i] == sorted;
    }

    /** Deleting what the previous index lists and this dump did not. */
    method Reconcile(fs: FileSystem, fspath: string, stale: Dict<string>) returns (raised: Option<Exc>)
      requires Valid(stale)
      modifies fs
      ensures Removal(fs.entries, raised) == ReconcileSpec(useMetadataFile, old(fs.entries), fspath, stale.keys, stale.values)
    {
      ghost var fs0 := fs.entries;
      raised := None;
      var i := 0;
      while i < |stale.keys|
        invariant 0 <= i <= |stale.keys|
        invariant raised.None?
        invariant Removal(fs.entries, raised) == ReconcileSpec(useMetadataFile, fs0, fspath, stale.keys[..i], stale.values)
      {
        ReconcileStep(useMetadataFile, fs0, fspath, stale.keys, stale.values, i);
        var id := stale.keys[i];
        raised := RemoveEntry(fs, fspath, id, stale.values[id]);
        i := i + 1;
        if raised.Some? {
          ReconcileStops(useMetadataFile, fs0, fspath, stale.keys, stale.values, i);
          return;
        }
      }
      assert stale.keys[..i] == stale.keys;
    }
  
    /** Removing one stale entry. */
    method RemoveEntry(fs: FileSystem, fspath: string, id: string, meta: string) returns (raised: Option<Exc>)
      modifies fs
      ensures Removal(fs.entries, raised) == DumpEngine.RemoveEntry(useMetadataFile, old(fs.entries), fspath, id, meta)
    {
      var h := Lookup(meta);
      var p := FSPathObj(fspath, id, h.ext, useMetadataFile);
      if h.ext == ExtDir {
        raised := fs.RemoveTree(p);
      } else {
        raised := fs.Remove(p);
        if raised.None? && h.ext != ExtMeta {
          raised := fs.Remove(MetadataPath(p, useMetadataFile));
        }
      }
    }
  
    // -------------------------------------------------------------------
    // Load
    // -------------------------------------------------------------------

    /** `loadFromFS`: clears the load logs, loads the folder and, only when
        that completes, moves the load watermark to the current time. */
    method LoadFromFS(fs: FileSystem, folder: ZopeFolder, fspath: string, run: Loaders, now: Timestamp)
      returns (raised: Option<Exc>)
      modifies this`loaded, this`loadConflicts, this`tslastload, folder
      ensures var r := LoadFolderSpec(old(LoadSettings()), LoadState(old(folder.Value()), [], []), fs.entries, fspath, run);
        && folder.Value() == r.st.folder && loaded == r.st.loaded && loadConflicts == r.st.conflicts && raised == r.raised
      ensures tslastload == if raised.None? then Some(now) else old(tslastload)
    {
      loaded := [];
      loadConflicts := [];
      raised := LoadFolder(fs, folder, fspath, run);
      if raised.None? {
        tslastload := Some(now);
      }
    }

    /** `_loadFolder` for the folder the dumper sits in. */
    method LoadFolder(fs: FileSystem, folder: ZopeFolder, fspath: string, run: Loaders) returns (raised: Option<Exc>)
      modifies this`loaded, this`loadConflicts, folder
      ensures var r := LoadFolderSpec(LoadSettings(), LoadState(old(folder.Value()), old(loaded), old(loadConflicts)), fs.entries, fspath, run);
        folder.Value() == r.st.folder && loaded == r.st.loaded && loadConflicts == r.st.conflicts && raised == r.raised
    {
      var text := ReadText(fs.entries, MetadataPath(fspath, useMetadataFile));
      if text.Err? {
        return Some(Error(text.error));
      }
      var props, rest := ReadProperties(SkipHeader(Lines(text.value)));
      ReadFromValid(SkipHeader(Lines(text.value)), Empty());
      folder.sheet := LoadProperties(folder.sheet, props);
      var objs: Dict<string>;
      if useMetadataFile {
        if rest == [] {
          return Some(Error(NoNextLine));
        }
        var r := ReadIndex(rest[1..]);
        if r.Err? {
          return Some(Error(r.error));
        }
        objs := r.value;
      } else {
        var index := ReadText(fs.entries, ObjectsPath(fspath));
        if index.Err? {
          return Some(Error(index.error));
        }
        var r := ReadIndex(Lines(index.value));
        if r.Err? {
          return Some(Error(r.error));
        }
        objs := r.value;
      }
      assert ListedObjects(LoadSettings(), fs.entries, fspath, rest) == Ok(objs);
      raised := LoadObjects(fs, folder, fspath, objs, run);
      if raised.Some? {
        return;
      }
      Prune(folder, objs);
    }

    /** `_loadObjects`. */
    method LoadObjects(fs: FileSystem, folder: ZopeFolder, fspath: string, objs: Dict<string>, run: Loaders)
      returns (raised: Option<Exc>)
      requires Valid(objs)
      modifies this`loaded, this`loadConflicts, folder
      ensures LoadResult(LoadState(folder.Value(), loaded, loadConflicts), raised)
           == LoadObjectsSpec(LoadSettings(), LoadState(old(folder.Value()), old(loaded), old(loadConflicts)),
                              fs.entries, fspath, objs.keys, objs.values, run)
    {
      ghost var st0 := LoadState(folder.Value(), loaded, loadConflicts);
      raised := None;
      var i := 0;
      while i < |objs.keys|
        invariant 0 <= i <= |objs.keys|
        invariant raised.None?
        invariant LoadResult(LoadState(folder.Value(), loaded, loadConflicts), raised)
               == LoadObjectsSpec(LoadSettings(), st0, fs.entries, fspath, objs.keys[..i], objs.values, run)
      {
        LoadObjectsStep(LoadSettings(), st0, fs.entries, fspath, objs.keys, objs.values, run, i);
        raised := LoadEntry(fs, folder, fspath, objs.keys[i], objs.values[objs.keys[i]], run);
        i := i + 1;
        if raised.Some? {
          LoadObjectsStops(LoadSettings(), st0, fs.entries, fspath, objs.keys, objs.values, run, i);
          return;
        }
      }
      assert objs.keys[..i] == objs.keys;
    }

    /** One pass of the `_loadObjects` loop: the child `id` listed with
        meta type `meta`. */
    method LoadEntry(fs: FileSystem, folder: ZopeFolder, fspath: string, id: string, meta: string, run: Loaders)
      returns (raised: Option<Exc>)
      modifies this`loaded, this`loadConflicts, folder
      ensures LoadResult(LoadState(folder.Value(), loaded, loadConflicts), raised)
           == LoadEngine.LoadEntry(LoadSettings(), LoadState(old(folder.Value()), old(loaded), old(loadConflicts)),
                                   fs.entries, fspath, id, meta, run)
    {
      raised := None;
      var h := Lookup(meta);
      if !h.hasLoader {
        return;
      }
      var p := FSPathObj(fspath, id, h.ext, useMetadataFile);
      var obj := FindChild(folder.children, id);
      var action := LoadAction(loadAll, h.ext == ExtDir, if obj.Some? then Some(obj.value.ts) else None,
                               MTime(fs.entries, p), tslastdump, tslastload);
      assert action == ObjectAction(LoadSettings(), folder.Value(), fs.entries, fspath, id, meta);
      match action {
        case Err(e) =>
          raised := Some(Error(e));
        case Ok(Skip) =>
        case Ok(Conflict) =>
          loadConflicts := loadConflicts + [p];
        case Ok(Write) =>
          LoadObject(fs, folder, id, p, h.ext, run);
      }
    }

    /** `_loadObject`. */
    method LoadObject(fs: FileSystem, folder: ZopeFolder, id: string, p: string, ext: string, run: Loaders)
      modifies this`loaded, folder
      ensures LoadState(folder.Value(), loaded, loadConflicts)
           == LoadEngine.LoadObject(LoadState(old(folder.Value()), old(loaded), loadConflicts), fs.entries, id, p, ext, run)
    {
      if ext != ExtDir && FindChild(folder.children, id).Some? {
        folder.DelObject(id);
      }
      var out := run(folder.Value(), id, p, fs.entries);
      folder.sheet := out.folder.sheet;
      folder.children := out.folder.children;
      if out.ok {
        loaded := loaded + [p];
      }
    }

    /** The deletion loop at the end of `_loadFolder`, over the children as
        `objectValues()` lists them before the loop. */
    method Prune(folder: ZopeFolder, objs: Dict<string>)
      modifies folder
      ensures folder.sheet == old(folder.sheet)
      ensures folder.children == PruneSpec(old(folder.children), old(folder.children), objs)
    {
      var snapshot := folder.children;
      for i := 0 to |snapshot|
        invariant folder.sheet == old(folder.sheet)
        invariant folder.children == PruneSpec(snapshot, snapshot[..i], objs)
      {
        PruneStep(snapshot, objs, i);
        var c := snapshot[i];
        if Lookup(c.meta).hasDumper && c.id !in objs.values {
          folder.DelObject(c.id);
        }
      }
      assert snapshot[..|snapshot|] == snapshot;
    }
  }
}
